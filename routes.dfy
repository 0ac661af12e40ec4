/** The four Express handlers of backend/routes/products.js. Each handler
    is split in two: a function from the database's answers to the HTTP
    response, and a method that builds the queries, asks the database and
    answers with that function. The database is a parameter that maps a
    query to its rows or to a driver error. */
module Routes {
  import opened JsValues
  import opened Catalog
  import opened Recommendations

  datatype Body =
    | Products(items: seq<Product>)
    | Item(product: Product)
    | Recommended(recommendations: seq<Recommendation>)
    | Error(message: string)

  datatype Response = Response(status: int, body: Body)

  /** The rows a query returns, or the error the driver rejects with. */
  type Answer = Outcome<seq<Row>>

  type Database = Query -> Answer

  const ProductsFailure := "Failed to fetch products"
  const ProductFailure := "Failed to fetch product"
  const RecommendationsFailure := "Failed to fetch recommendations"
  const ProductNotFound := "Product not found"

  /** `res.status(400).json(formatError())` */
  function InvalidCategory(): Response {
    Response(400, Error(InvalidCategoryMessage()))
  }

  function Failure(message: string): Response {
    Response(500, Error(message))
  }

  /** The error text lists the registry's keys in registration order. */
  lemma InvalidCategoryText()
    ensures InvalidCategoryMessage() == "Invalid category. Must be one of: cars, jumia"
  {
    assert ValidCategories[1..] == ["jumia"];
  }

  // ---------------------------------------------------------------------
  // rows.map(config.mapRow)

  /** Projects every row, in order; the first throwing projection aborts. */
  function ProjectAll(c: Category, rows: seq<Row>): (r: Outcome<seq<Product>>)
    ensures r.Returned? ==> |r.value| == |rows|
  {
    if rows == [] then Returned([])
    else match MapRow(c, rows[0])
      case Threw(e) => Threw(e)
      case Returned(p) =>
        match ProjectAll(c, rows[1..])
        case Threw(e) => Threw(e)
        case Returned(ps) => Returned([p] + ps)
  }

  /** The i-th product is the projection of the i-th row, and projecting
      fails exactly when some row's projection throws. */
  lemma ProjectAllRows(c: Category, rows: seq<Row>)
    ensures var r := ProjectAll(c, rows);
      && (r.Threw? <==> exists i :: 0 <= i < |rows| && MapRow(c, rows[i]).Threw?)
      && (r.Returned? ==> forall i :: 0 <= i < |rows| ==> MapRow(c, rows[i]) == Returned(r.value[i]))
  {
    ProjectAllThrows(c, rows);
    if ProjectAll(c, rows).Returned? {
      ProjectAllReturned(c, rows);
    }
  }

  lemma {:induction false} ProjectAllThrows(c: Category, rows: seq<Row>)
    ensures ProjectAll(c, rows).Threw? <==> exists i :: 0 <= i < |rows| && MapRow(c, rows[i]).Threw?
  {
    if rows != [] {
      ProjectAllThrows(c, rows[1..]);
      assert forall i :: 1 <= i < |rows| ==> rows[i] == rows[1..][i - 1];
      if MapRow(c, rows[0]).Returned? && ProjectAll(c, rows).Threw? {
        var i :| 0 <= i < |rows[1..]| && MapRow(c, rows[1..][i]).Threw?;
        assert rows[i + 1] == rows[1..][i];
      }
    }
  }

  lemma {:induction false} ProjectAllReturned(c: Category, rows: seq<Row>)
    requires ProjectAll(c, rows).Returned?
    ensures forall i :: 0 <= i < |rows| ==> MapRow(c, rows[i]) == Returned(ProjectAll(c, rows).value[i])
  {
    if rows != [] {
      ProjectAllReturned(c, rows[1..]);
      var p := MapRow(c, rows[0]).value;
      var ps := ProjectAll(c, rows[1..]).value;
      assert ProjectAll(c, rows).value == [p] + ps;
      ProjectedCons(c, rows[0], p, rows[1..], ps);
      assert rows == [rows[0]] + rows[1..];
    }
  }

  lemma ProjectedCons(c: Category, row: Row, p: Product, rows: seq<Row>, ps: seq<Product>)
    requires MapRow(c, row) == Returned(p)
    requires |ps| == |rows| && forall i :: 0 <= i < |rows| ==> MapRow(c, rows[i]) == Returned(ps[i])
    ensures var rows', ps' := [row] + rows, [p] + ps;
      forall i :: 0 <= i < |rows'| ==> MapRow(c, rows'[i]) == Returned(ps'[i])
  {
    var rows', ps' := [row] + rows, [p] + ps;
    forall i | 0 <= i < |rows'| ensures MapRow(c, rows'[i]) == Returned(ps'[i]) {
      if i > 0 {
        assert rows'[i] == rows[i - 1] && ps'[i] == ps[i - 1];
      }
    }
  }

  /** Every product of one category's listing carries that category. */
  lemma ProjectAllCategory(c: Category, rows: seq<Row>)
    requires ProjectAll(c, rows).Returned?
    ensures forall i :: 0 <= i < |ProjectAll(c, rows).value| ==> ProjectAll(c, rows).value[i].category == Key(c)
  {
    ProjectAllRows(c, rows);
  }

  /** The rows of one category's answer, projected. */
  function Listed(c: Category, answer: Answer): Outcome<seq<Product>> {
    match answer
    case Threw(e) => Threw(e)
    case Returned(rows) => ProjectAll(c, rows)
  }

  // ---------------------------------------------------------------------
  // GET /:category

  /** `q` is what `buildQuery(config)` gives for category `c`: the whole
      table in the configured order, no bound values, one value per
      placeholder. */
  predicate IsListing(q: Query, c: Category) {
    var config := ConfigOf(c);
    q.params == [] && PlaceholdersMatch(q) && q.sql == SelectFrom(config) + " ORDER BY " + config.orderBy
  }

  function ListCategory(category: string, answer: Answer): (resp: Response)
    ensures resp == InvalidCategory() <==> Lookup(category).None?
    ensures Lookup(category).Some? ==> resp.status == 200 || resp == Failure(ProductsFailure)
    ensures Lookup(category).Some? && answer.Threw? ==> resp == Failure(ProductsFailure)
    ensures Lookup(category).Some? && answer.Returned? ==>
      var c := Lookup(category).value;
      && (resp.status == 200 <==> forall i :: 0 <= i < |answer.value| ==> MapRow(c, answer.value[i]).Returned?)
      && (resp.status != 200 ==> resp == Failure(ProductsFailure))
    ensures resp.status == 200 ==>
      var c := Lookup(category).value;
      && answer.Returned? && resp.body.Products?
      && |resp.body.items| == |answer.value|
      && forall i :: 0 <= i < |answer.value| ==> MapRow(c, answer.value[i]) == Returned(resp.body.items[i])
  {
    match Lookup(category)
    case None => InvalidCategory()
    case Some(c) =>
      match answer
      case Threw(_) => Failure(ProductsFailure)
      case Returned(rows) =>
        ProjectAllRows(c, rows);
        match ProjectAll(c, rows)
        case Threw(_) => Failure(ProductsFailure)
        case Returned(items) => Response(200, Products(items))
  }

  /** `buildQuery(config)` for a registered category. */
  method ListingQuery(c: Category) returns (q: Query)
    ensures IsListing(q, c)
  {
    RegistryPlaceholderFree(c);
    q := BuildQuery(ConfigOf(c), Undefined);
  }

  method ServeCategory(category: string, db: Database) returns (resp: Response, sent: seq<Query>)
    ensures Lookup(category).None? ==> sent == []
    ensures Lookup(category).Some? ==> |sent| == 1 && IsListing(sent[0], Lookup(category).value)
    ensures resp == ListCategory(category, if sent == [] then Returned([]) else db(sent[0]))
  {
    sent := [];
    match Lookup(category)
    case None =>
      resp := InvalidCategory();
    case Some(c) =>
      var q := ListingQuery(c);
      sent := [q];
      resp := ListCategory(category, db(q));
  }

  // ---------------------------------------------------------------------
  // GET /:category/:id

  function GetProduct(category: string, answer: Answer): (resp: Response)
    ensures resp == InvalidCategory() <==> Lookup(category).None?
    ensures resp.status == 404 <==> Lookup(category).Some? && answer == Returned([])
    ensures resp.status == 404 ==> resp.body == Error(ProductNotFound)
    ensures Lookup(category).Some? && answer.Threw? ==> resp == Failure(ProductFailure)
    ensures Lookup(category).Some? && answer.Returned? && |answer.value| > 0 ==>
      var projected := MapRow(Lookup(category).value, answer.value[0]);
      && (resp.status == 200 <==> projected.Returned?)
      && (projected.Threw? ==> resp == Failure(ProductFailure))
    ensures resp.status == 200 ==>
      answer.Returned? && |answer.value| > 0 && resp.body.Item?
      && MapRow(Lookup(category).value, answer.value[0]) == Returned(resp.body.product)
  {
    match Lookup(category)
    case None => InvalidCategory()
    case Some(c) =>
      match answer
      case Threw(_) => Failure(ProductFailure)
      case Returned(rows) =>
        if |rows| == 0 then Response(404, Error(ProductNotFound))
        else match MapRow(c, rows[0])
          case Threw(_) => Failure(ProductFailure)
          case Returned(p) => Response(200, Item(p))
  }

  method ServeProduct(category: string, id: string, db: Database) returns (resp: Response, sent: seq<Query>)
    ensures Lookup(category).None? ==> sent == []
    ensures Lookup(category).Some? ==>
      var config := ConfigOf(Lookup(category).value);
      && |sent| == 1 && PlaceholdersMatch(sent[0])
      && (id != "" ==> sent[0].params == [Str(id)]
                       && sent[0].sql == SelectFrom(config) + " WHERE " + config.idColumn + " = ?")
    ensures resp == GetProduct(category, if sent == [] then Returned([]) else db(sent[0]))
  {
    sent := [];
    match Lookup(category)
    case None =>
      resp := InvalidCategory();
    case Some(c) =>
      RegistryPlaceholderFree(c);
      var q := BuildQuery(ConfigOf(c), Str(id));
      sent := [q];
      resp := GetProduct(category, db(q));
  }

  // ---------------------------------------------------------------------
  // GET /:category/:id/recommendations

  /** `products` is only read when the edge query returned some edges. */
  function RecommendationsFor(config: Config, edges: Answer, products: Answer): (resp: Response)
    ensures resp.status == 200 || resp == Failure(RecommendationsFailure)
    ensures !HasRecommendationTable(config) ==> resp == Response(200, Recommended([]))
    ensures HasRecommendationTable(config) && edges.Threw? ==> resp == Failure(RecommendationsFailure)
    ensures edges == Returned([]) ==> resp == Response(200, Recommended([]))
    ensures HasRecommendationTable(config) && edges.Returned? && edges.value != [] ==>
      && (products.Threw? ==> resp == Failure(RecommendationsFailure))
      && (products.Returned? ==>
            (resp.status == 200 <==> FetchRecommendations(config, edges.value, products.value).Returned?))
    ensures resp.status == 200 && HasRecommendationTable(config) && edges.Returned? && edges.value != [] ==>
      products.Returned? && resp.body.Recommended?
      && FetchRecommendations(config, edges.value, products.value) == Returned(resp.body.recommendations)
  {
    if !HasRecommendationTable(config) then Response(200, Recommended([]))
    else match edges
      case Threw(_) => Failure(RecommendationsFailure)
      case Returned(es) =>
        if es == [] then Response(200, Recommended([]))
        else match products
          case Threw(_) => Failure(RecommendationsFailure)
          case Returned(ps) =>
            var fetched := FetchRecommendations(config, es, ps);
            if fetched.Threw? then Failure(RecommendationsFailure) else Response(200, Recommended(fetched.value))
  }

  function GetRecommendations(category: string, edges: Answer, products: Answer): (resp: Response)
    ensures resp == InvalidCategory() <==> Lookup(category).None?
    ensures Lookup(category).Some? ==> resp == RecommendationsFor(ConfigOf(Lookup(category).value), edges, products)
  {
    match Lookup(category)
    case None => InvalidCategory()
    case Some(c) => RecommendationsFor(ConfigOf(c), edges, products)
  }

  /** The queries `fetchRecommendations(config, id)` sends: the edge query,
      then the product query for the edges' targets only when there are
      edges, and the database's answers to them. */
  method SendRecommendationQueries(config: Config, id: Value, db: Database)
      returns (sent: seq<Query>, edges: Answer, products: Answer)
    requires HasRecommendationTable(config) && PlaceholderFree(config)
    requires EdgeConfigFree(config.recommendations.value)
    ensures 1 <= |sent| <= 2
    ensures sent[0] == EdgeQuery(config.recommendations.value, id) && edges == db(sent[0])
    ensures |sent| == 2 <==> edges.Returned? && edges.value != []
    ensures |sent| == 2 ==> sent[1] == ProductQuery(config, TargetIds(edges.value))
    ensures products == if |sent| < 2 then Returned([]) else db(sent[1])
    ensures forall i :: 0 <= i < |sent| ==> PlaceholdersMatch(sent[i])
  {
    var edgeQuery := EdgeQuery(config.recommendations.value, id);
    sent := [edgeQuery];
    edges := db(edgeQuery);
    products := Returned([]);
    if edges.Returned? && edges.value != [] {
      var productQuery := ProductQuery(config, TargetIds(edges.value));
      sent := [edgeQuery, productQuery];
      products := db(productQuery);
    }
  }

  method ServeRecommendations(category: string, id: string, db: Database) returns (resp: Response, sent: seq<Query>)
    ensures Lookup(category).None? ==> sent == []
    ensures Lookup(category).Some? ==>
      var config := ConfigOf(Lookup(category).value);
      && 1 <= |sent| <= 2
      && sent[0] == EdgeQuery(config.recommendations.value, Str(id))
      && (|sent| == 2 <==> db(sent[0]).Returned? && db(sent[0]).value != [])
      && (|sent| == 2 ==> sent[1] == ProductQuery(config, TargetIds(db(sent[0]).value)))
      && (forall i :: 0 <= i < |sent| ==> PlaceholdersMatch(sent[i]))
    ensures resp == GetRecommendations(category,
                                       if sent == [] then Returned([]) else db(sent[0]),
                                       if |sent| < 2 then Returned([]) else db(sent[1]))
  {
    sent := [];
    match Lookup(category)
    case None =>
      resp := InvalidCategory();
    case Some(c) =>
      RegistryPlaceholderFree(c);
      RegistryEdgeConfigFree(c);
      var edges, products;
      sent, edges, products := SendRecommendationQueries(ConfigOf(c), Str(id), db);
      resp := GetRecommendations(category, edges, products);
  }

  // ---------------------------------------------------------------------
  // GET /?category=...

  /** `Promise.all` of the per-category listings, then `.flat()`: the
      parts concatenated in order, or a failure as soon as one part fails. */
  function Flatten<T>(parts: seq<Outcome<seq<T>>>): (r: Outcome<seq<T>>)
    ensures r.Returned? <==> forall i :: 0 <= i < |parts| ==> parts[i].Returned?
  {
    if parts == [] then Returned([])
    else
      var rest := Flatten(parts[1..]);
      assert forall i :: 1 <= i < |parts| ==> parts[i] == parts[1..][i - 1];
      match parts[0]
      case Threw(e) => Threw(e)
      case Returned(items) =>
        match rest
        case Threw(e) => Threw(e)
        case Returned(more) => Returned(items + more)
  }

  lemma FlattenPair<T>(a: Outcome<seq<T>>, b: Outcome<seq<T>>)
    ensures Flatten([a, b]).Returned? ==> a.Returned? && b.Returned? && Flatten([a, b]).value == a.value + b.value
  {
    assert [a, b][1..] == [b] && [b][1..] == [];
    assert Flatten([b]) == (if b.Returned? then Returned(b.value + []) else b);
    if a.Returned? && b.Returned? {
      assert b.value + [] == b.value;
      assert Flatten([a, b]) == Returned(a.value + b.value);
    }
  }

  /** `VALID_CATEGORIES.map(...)`: the listing of each category, in order. */
  function Listings(cs: seq<Category>, answers: seq<Answer>): (r: seq<Outcome<seq<Product>>>)
    requires |cs| == |answers|
    ensures |r| == |cs| && forall i :: 0 <= i < |cs| ==> r[i] == Listed(cs[i], answers[i])
  {
    seq(|cs|, i requires 0 <= i < |cs| => Listed(cs[i], answers[i]))
  }

  /** Without a category, every registered category's listing, in
      registration order; one failing query fails the whole request. */
  function ListAll(answers: seq<Answer>): (resp: Response)
    requires |answers| == |Registry|
    ensures resp.status == 200 || resp == Failure(ProductsFailure)
    ensures resp.status == 200 <==> Listed(Cars, answers[0]).Returned? && Listed(Jumia, answers[1]).Returned?
    ensures resp.status == 200 ==>
      resp.body == Products(Listed(Cars, answers[0]).value + Listed(Jumia, answers[1]).value)
  {
    var parts := Listings(Registry, answers);
    assert parts == [Listed(Cars, answers[0]), Listed(Jumia, answers[1])];
    FlattenPair(parts[0], parts[1]);
    match Flatten(parts)
    case Threw(_) => Failure(ProductsFailure)
    case Returned(items) => Response(200, Products(items))
  }

  /** In the combined listing every `cars` product precedes every `jumia`
      product, and each category's products keep their row order. */
  lemma ListAllGrouped(answers: seq<Answer>)
    requires |answers| == |Registry|
    requires ListAll(answers).status == 200
    ensures var items := ListAll(answers).body.items;
      && |items| == |answers[0].value| + |answers[1].value|
      && forall i, j :: 0 <= i < j < |items| ==> Rank(items[i].category) <= Rank(items[j].category)
  {
    var cars := Listed(Cars, answers[0]).value;
    var jumia := Listed(Jumia, answers[1]).value;
    assert ListAll(answers).body.items == cars + jumia;
    ProjectAllCategory(Cars, answers[0].value);
    ProjectAllCategory(Jumia, answers[1].value);
    GroupedConcat(cars, jumia);
  }

  lemma GroupedConcat(cars: seq<Product>, jumia: seq<Product>)
    requires forall i :: 0 <= i < |cars| ==> cars[i].category == "cars"
    requires forall i :: 0 <= i < |jumia| ==> jumia[i].category == "jumia"
    ensures var items := cars + jumia;
      forall i, j :: 0 <= i < j < |items| ==> Rank(items[i].category) <= Rank(items[j].category)
  {
    var items := cars + jumia;
    forall i | 0 <= i < |items| ensures Rank(items[i].category) == (if i < |cars| then 0 else 1) {
      if i >= |cars| {
        assert items[i] == jumia[i - |cars|];
      }
    }
  }

  /** `GET /`: a truthy `category` query parameter narrows the listing to
      that category exactly as `GET /:category` does. */
  method ServeAll(category: Option<string>, db: Database) returns (resp: Response, sent: seq<Query>)
    ensures category.Some? && category.value != "" ==>
      && (Lookup(category.value).None? ==> sent == [])
      && (Lookup(category.value).Some? ==> |sent| == 1 && IsListing(sent[0], Lookup(category.value).value))
      && resp == ListCategory(category.value, if sent == [] then Returned([]) else db(sent[0]))
    ensures !(category.Some? && category.value != "") ==>
      && |sent| == |Registry|
      && (forall i :: 0 <= i < |sent| ==> IsListing(sent[i], Registry[i]))
      && resp == ListAll([db(sent[0]), db(sent[1])])
  {
    if category.Some? && category.value != "" {
      resp, sent := ServeCategory(category.value, db);
    } else {
      resp, sent := ServeEveryCategory(db);
    }
  }

  /** One listing query per registered category, in registration order. */
  method ServeEveryCategory(db: Database) returns (resp: Response, sent: seq<Query>)
    ensures |sent| == |Registry|
    ensures forall i :: 0 <= i < |sent| ==> IsListing(sent[i], Registry[i])
    ensures resp == ListAll([db(sent[0]), db(sent[1])])
  {
    var answers;
    sent, answers := QueryEach(Registry, db);
    resp := ListAll(answers);
    SameAnswers(answers, [db(sent[0]), db(sent[1])]);
  }

  lemma SameAnswers(a: seq<Answer>, b: seq<Answer>)
    requires |a| == |b| == |Registry| && a[0] == b[0] && a[1] == b[1]
    ensures ListAll(a) == ListAll(b)
  {
    assert a == b;
  }

  /** The listing query of each of `cs`, in order, and the database's
      answer to each. */
  method QueryEach(cs: seq<Category>, db: Database) returns (sent: seq<Query>, answers: seq<Answer>)
    ensures |sent| == |answers| == |cs|
    ensures forall i :: 0 <= i < |cs| ==> IsListing(sent[i], cs[i]) && answers[i] == db(sent[i])
  {
    sent := [];
    answers := [];
    for i := 0 to |cs|
      invariant |sent| == |answers| == i
      invariant forall j :: 0 <= j < i ==> IsListing(sent[j], cs[j]) && answers[j] == db(sent[j])
    {
      var q := ListingQuery(cs[i]);
      ListedStep(sent, answers, cs, db, q);
      sent := sent + [q];
      answers := answers + [db(q)];
    }
  }

  /** Appending the next category's listing query and its answer keeps the
      loop's correspondence between categories, queries and answers. */
  lemma ListedStep(sent: seq<Query>, answers: seq<Answer>, cs: seq<Category>, db: Database, q: Query)
    requires |sent| == |answers| < |cs| && IsListing(q, cs[|sent|])
    requires forall j :: 0 <= j < |sent| ==> IsListing(sent[j], cs[j]) && answers[j] == db(sent[j])
    ensures forall j :: 0 <= j <= |sent| ==>
      IsListing((sent + [q])[j], cs[j]) && (answers + [db(q)])[j] == db((sent + [q])[j])
  {
    forall j | 0 <= j <= |sent|
      ensures IsListing((sent + [q])[j], cs[j]) && (answers + [db(q)])[j] == db((sent + [q])[j])
    {
      if j < |sent| {
        assert (sent + [q])[j] == sent[j];
        assert (answers + [db(q)])[j] == answers[j];
      }
    }
  }

  // ---------------------------------------------------------------------
  // The category lookup as written

  /** `GET /:category` with the lookup the source performs: for a name
      inherited from `Object.prototype` the check passes, and
      `rows.map(config.mapRow)` then throws whatever the database answers. */
  function ListCategoryAsWritten(category: string, answer: Answer): (resp: Response)
    ensures LookupAsWritten(category).Registered? ==> resp == ListCategory(category, answer)
    ensures LookupAsWritten(category).Unregistered? ==> resp == InvalidCategory()
    ensures LookupAsWritten(category).Inherited? ==> resp == Failure(ProductsFailure)
  {
    match LookupAsWritten(category)
    case Registered(_) => ListCategory(category, answer)
    case Inherited(_) => Failure(ProductsFailure)
    case Unregistered => InvalidCategory()
  }

  /** `GET /:category/:id` as written: an inherited name reaches the
      database, and a non-empty answer ends in calling an undefined
      `config.mapRow`. */
  function GetProductAsWritten(category: string, answer: Answer): (resp: Response)
    ensures LookupAsWritten(category).Registered? ==> resp == GetProduct(category, answer)
    ensures LookupAsWritten(category).Unregistered? ==> resp == InvalidCategory()
    ensures LookupAsWritten(category).Inherited? ==>
      resp == (if answer == Returned([]) then Response(404, Error(ProductNotFound)) else Failure(ProductFailure))
  {
    match LookupAsWritten(category)
    case Registered(_) => GetProduct(category, answer)
    case Inherited(_) =>
      if answer == Returned([]) then Response(404, Error(ProductNotFound)) else Failure(ProductFailure)
    case Unregistered => InvalidCategory()
  }

  /** `GET /:category/:id/recommendations` as written: an inherited name
      has no `recommendations` entry, so the handler answers 200 with an
      empty list. */
  function GetRecommendationsAsWritten(category: string, edges: Answer, products: Answer): (resp: Response)
    ensures LookupAsWritten(category).Registered? ==> resp == GetRecommendations(category, edges, products)
    ensures LookupAsWritten(category).Unregistered? ==> resp == InvalidCategory()
    ensures LookupAsWritten(category).Inherited? ==> resp == Response(200, Recommended([]))
  {
    match LookupAsWritten(category)
    case Registered(c) => RecommendationsFor(ConfigOf(c), edges, products)
    case Inherited(_) => Response(200, Recommended([]))
    case Unregistered => InvalidCategory()
  }

  /** The name `constructor` is not a category, yet the handlers as written
      do not reject it with 400: the recommendations route answers 200 with
      an empty list and the listing route 500, where the lookup restricted
      to the registry's own keys answers 400 on every route. */
  lemma InheritedNameNotRejected(edges: Answer, products: Answer, answer: Answer)
    ensures GetRecommendationsAsWritten("constructor", edges, products) == Response(200, Recommended([]))
    ensures ListCategoryAsWritten("constructor", answer) == Failure(ProductsFailure)
    ensures GetProductAsWritten("constructor", answer).status != 400
    ensures GetRecommendations("constructor", edges, products) == InvalidCategory()
    ensures ListCategory("constructor", answer) == InvalidCategory()
    ensures GetProduct("constructor", answer) == InvalidCategory()
  {
    InheritedNamePassesValidation();
  }
}
