/** The category registry of backend/routes/products.js: per-category table
    metadata, the two row projections (`mapRow`), category validation with
    its error text, and the SQL text built by `buildQuery`. */
module Catalog {
  import opened JsValues

  datatype Category = Cars | Jumia

  /** Where a category's recommendation edges live. `limit` is the value the
      registry gives, so a falsy one stands for "unset". */
  datatype RecommendationConfig = RecommendationConfig(
    table: string,
    sourceColumn: string,
    targetColumn: string,
    orderBy: string,
    limit: Value)

  /** One entry of the registry. `category` selects the projection;
      `columns` are the selected (possibly aliased) columns, in order. An
      empty `orderBy` stands for an unset one. */
  datatype Config = Config(
    category: Category,
    table: string,
    idColumn: string,
    columns: seq<string>,
    orderBy: string,
    recommendations: Option<RecommendationConfig>)

  /** The `selectFields` template: one column per line. */
  function SelectFields(config: Config): string {
    "\n      " + Join(config.columns, ",\n      ") + "\n    "
  }

  /** The registry's keys, in registration order. */
  const Registry: seq<Category> := [Cars, Jumia]
  const ValidCategories: seq<string> := ["cars", "jumia"]

  function Key(c: Category): string {
    match c
    case Cars => "cars"
    case Jumia => "jumia"
  }

  /** Position in registration order. */
  function Rank(key: string): nat {
    if key == "cars" then 0 else 1
  }

  const CarsColumns: seq<string> := [
    "coin_afrique_id AS source_id", "brand", "model", "seller_name",
    "location", "Price AS price", "image_url", "year"]
  const JumiaColumns: seq<string> := [
    "jumia_product_id AS source_id", "brand_name", "product_name", "Price AS price",
    "discount", "reviews_rating", "reviews_count", "image_url"]

  function ConfigOf(c: Category): (config: Config)
    ensures config.category == c
  {
    match c
    case Cars =>
      Config(Cars, "coin_afrique_cars", "coin_afrique_id", CarsColumns, "brand ASC, model ASC",
             Some(RecommendationConfig("coin_recommendations", "product_id", "recommended_id",
                                       "confidence DESC, lift DESC", Num(8.0))))
    case Jumia =>
      Config(Jumia, "jumia_products", "jumia_product_id", JumiaColumns, "brand_name ASC, product_name ASC",
             Some(RecommendationConfig("jumia_recommendations", "product_id", "recommended_id",
                                       "confidence DESC, lift DESC", Num(8.0))))
  }

  /** `CATEGORY_CONFIG[category]`, restricted to the registry's own keys. */
  function Lookup(name: string): (r: Option<Category>)
    ensures r.Some? <==> name in ValidCategories
    ensures r.Some? ==> Key(r.value) == name && r.value in Registry
  {
    if name == "cars" then Some(Cars)
    else if name == "jumia" then Some(Jumia)
    else None
  }

  /** The text of `formatError()`. */
  function InvalidCategoryMessage(): string {
    "Invalid category. Must be one of: " + Join(ValidCategories, ", ")
  }

  // ---------------------------------------------------------------------
  // The literal object lookup, as the source writes it

  /** What `CATEGORY_CONFIG[name]` answers on a plain object literal: one of
      its own keys, a member inherited from `Object.prototype` (truthy, but
      not a category), or `undefined`. */
  datatype Resolution = Registered(category: Category) | Inherited(name: string) | Unregistered

  const ObjectPrototypeMembers: set<string> := {
    "constructor", "hasOwnProperty", "isPrototypeOf", "propertyIsEnumerable",
    "toLocaleString", "toString", "valueOf", "__proto__", "__defineGetter__",
    "__defineSetter__", "__lookupGetter__", "__lookupSetter__"
  }

  function LookupAsWritten(name: string): (r: Resolution)
    ensures r.Registered? <==> Lookup(name).Some?
    ensures r.Inherited? <==> name in ObjectPrototypeMembers
  {
    if name == "cars" then Registered(Cars)
    else if name == "jumia" then Registered(Jumia)
    else if name in ObjectPrototypeMembers then Inherited(name)
    else Unregistered
  }

  /** The check `if (!config)` lets an inherited member through although it
      is not a registered category. */
  lemma InheritedNamePassesValidation()
    ensures LookupAsWritten("constructor").Inherited?
    ensures Lookup("constructor").None? && "constructor" !in ValidCategories
  {
  }

  // ---------------------------------------------------------------------
  // The product view-model

  /** The API's product shape. The optional attributes after `category`
      are `Null` when a category has a slot but no value, and `Undefined`
      when its projection does not set them at all (absent from the JSON). */
  datatype Product = Product(
    id: string,
    name: string,
    description: string,
    price: real,
    imageUrl: Value,
    category: string,
    brand: Value,
    model: Value,
    color: Value,
    storage: Value,
    screenSize: Value,
    battery: Value,
    engine: Value,
    range: Value,
    acceleration: Value,
    location: Value,
    sellerName: Value,
    year: Value,
    discount: Value,
    reviewsRating: Value,
    reviewsCount: Value)

  const DetailSeparator := " \U{2022} "

  /** An optional attribute as the projections fill it: absent, null, or a
      truthy column value. */
  predicate Optional(v: Value) {
    v == Undefined || v == Null || Truthy(v)
  }

  /** The attributes that both projections set to null unconditionally. */
  predicate DeviceSlotsNull(p: Product) {
    p.color == Null && p.storage == Null && p.screenSize == Null && p.battery == Null
    && p.engine == Null && p.range == Null && p.acceleration == Null
  }

  function PlaceholderImage(c: Category): string {
    match c
    case Cars => "https://via.placeholder.com/600x400?text=Vehicle"
    case Jumia => "https://via.placeholder.com/600x400?text=Product"
  }

  function DefaultDescription(c: Category): string {
    match c
    case Cars => "Vehicle sourced from CoinAfrique listings"
    case Jumia => "Popular item sourced from Jumia listings"
  }

  /** `values.filter(Boolean)`, each joined later as `String(v)`. */
  function TruthyTexts(vs: seq<Value>): (r: seq<string>)
    ensures |r| <= |vs|
  {
    if vs == [] then []
    else (if Truthy(vs[0]) then [ToText(vs[0])] else []) + TruthyTexts(vs[1..])
  }

  /** `v && \`${prefix}${v}${suffix}\``, kept only when truthy. */
  function Fragment(prefix: string, v: Value, suffix: string): seq<string> {
    if Truthy(v) then [prefix + ToText(v) + suffix] else []
  }

  /** `details.filter(Boolean).join(' • ') || fallback` */
  function Describe(details: seq<string>, fallback: string): (r: string)
    ensures details == [] ==> r == fallback
    ensures (forall i :: 0 <= i < |details| ==> details[i] != "") && details != [] ==>
              r == Join(details, DetailSeparator)
  {
    var joined := Join(details, DetailSeparator);
    JoinEmpty(details, DetailSeparator);
    if joined != "" then joined else fallback
  }

  function CarDetails(row: Row): seq<string> {
    Fragment("Year: ", Get(row, "year"), "")
    + Fragment("Location: ", Get(row, "location"), "")
    + Fragment("Seller: ", Get(row, "seller_name"), "")
  }

  function JumiaDetails(row: Row): seq<string> {
    Fragment("Brand: ", Get(row, "brand_name"), "")
    + Fragment("Discount: ", Get(row, "discount"), "")
    + Fragment("Rating: ", Get(row, "reviews_rating"), "")
    + Fragment("", Get(row, "reviews_count"), " reviews")
  }

  /** The `cars` display name: brand and model kept when truthy, joined by a
      space, white space collapsed and trimmed; "Vehicle listing" when
      neither is truthy. */
  function CarName(row: Row): string {
    var parts := TruthyTexts([Get(row, "brand"), Get(row, "model")]);
    if |parts| > 0 then Trim(CollapseSpaces(Join(parts, " "))) else "Vehicle listing"
  }

  /** `v && v.trim()` as a name candidate: `None` when it is falsy, a throw
      when `v` is truthy but not a string. */
  function TrimmedName(v: Value): Outcome<Option<string>> {
    if !Truthy(v) then Returned(None)
    else match v
      case Str(s) => (var t := Trim(s); Returned(if t == "" then None else Some(t)))
      case _ => Threw(TypeError)
  }

  /** The `jumia` display name: the trimmed product name, else the trimmed
      brand name, else "Jumia product". */
  function JumiaName(row: Row): (r: Outcome<string>)
    ensures r.Returned? ==> r.value != "" && Trimmed(r.value)
  {
    match TrimmedName(Get(row, "product_name"))
    case Threw(e) => Threw(e)
    case Returned(Some(name)) => Returned(name)
    case Returned(None) =>
      match TrimmedName(Get(row, "brand_name"))
      case Threw(e) => Threw(e)
      case Returned(Some(name)) => Returned(name)
      case Returned(None) => Returned("Jumia product")
  }

  function CarProduct(row: Row): Product {
    Product(
      ToText(Get(row, "source_id")),
      CarName(row),
      Describe(CarDetails(row), DefaultDescription(Cars)),
      NumberOrZero(Get(row, "price")),
      OrElse(Get(row, "image_url"), Str(PlaceholderImage(Cars))),
      "cars",
      brand := OrNull(Get(row, "brand")),
      model := OrNull(Get(row, "model")),
      color := Null, storage := Null, screenSize := Null, battery := Null,
      engine := Null, range := Null, acceleration := Null,
      location := OrNull(Get(row, "location")),
      sellerName := OrNull(Get(row, "seller_name")),
      year := OrNull(Get(row, "year")),
      discount := Undefined, reviewsRating := Undefined, reviewsCount := Undefined)
  }

  function JumiaProduct(row: Row): Outcome<Product> {
    match JumiaName(row)
    case Threw(e) => Threw(e)
    case Returned(name) =>
      Returned(Product(
        ToText(Get(row, "source_id")),
        name,
        Describe(JumiaDetails(row), DefaultDescription(Jumia)),
        NumberOrZero(Get(row, "price")),
        OrElse(Get(row, "image_url"), Str(PlaceholderImage(Jumia))),
        "jumia",
        brand := OrNull(Get(row, "brand_name")),
        model := Undefined,
        color := Null, storage := Null, screenSize := Null, battery := Null,
        engine := Null, range := Null, acceleration := Null,
        location := Undefined, sellerName := Undefined, year := Undefined,
        discount := OrNull(Get(row, "discount")),
        reviewsRating := OrNull(Get(row, "reviews_rating")),
        reviewsCount := OrNull(Get(row, "reviews_count"))))
  }

  /** `config.mapRow(row)`. Only the `jumia` projection can throw: `.trim()`
      on a truthy name column that is not a string. */
  function MapRow(c: Category, row: Row): (r: Outcome<Product>)
    ensures c == Cars ==> r.Returned?
    ensures r.Returned? ==>
      var p := r.value;
      var price := ToNumber(Get(row, "price"));
      && p.id == ToText(Get(row, "source_id"))
      && p.category == Key(c)
      && Truthy(p.imageUrl)
      && (Truthy(Get(row, "image_url")) ==> p.imageUrl == Get(row, "image_url"))
      && (!Truthy(Get(row, "image_url")) ==> p.imageUrl == Str(PlaceholderImage(c)))
      && (Nullish(Get(row, "price")) || price.NaN? ==> p.price == 0.0)
      && (price.Finite? ==> p.price == price.value)
  {
    match c
    case Cars => Returned(CarProduct(row))
    case Jumia => JumiaProduct(row)
  }

  // ---------------------------------------------------------------------
  // Properties of the projections

  /** Both projections null the device attributes; `cars` leaves the
      `jumia` attributes absent and the other way round; every attribute is
      absent, null or a truthy column value. */
  lemma AttributeShape(c: Category, row: Row)
    requires MapRow(c, row).Returned?
    ensures var p := MapRow(c, row).value;
      && DeviceSlotsNull(p)
      && (c == Cars ==> p.discount == Undefined && p.reviewsRating == Undefined && p.reviewsCount == Undefined)
      && (c == Jumia ==> p.model == Undefined && p.location == Undefined && p.sellerName == Undefined && p.year == Undefined)
      && Optional(p.brand) && Optional(p.model) && Optional(p.location) && Optional(p.sellerName)
      && Optional(p.year) && Optional(p.discount) && Optional(p.reviewsRating) && Optional(p.reviewsCount)
  {
  }

  /** Only a negative number in the price column gives a negative price. */
  lemma PriceSign(c: Category, row: Row)
    requires MapRow(c, row).Returned?
    ensures var price := ToNumber(Get(row, "price"));
      MapRow(c, row).value.price < 0.0 <==> price.Finite? && price.value < 0.0
  {
  }

  /** The `jumia` projection throws exactly when `.trim()` is first applied
      to a truthy value that is not a string. */
  lemma JumiaThrows(row: Row)
    ensures var p := Get(row, "product_name"); var b := Get(row, "brand_name");
      MapRow(Jumia, row).Threw? <==>
        (Truthy(p) && !p.Str?)
        || (TrimmedName(p) == Returned(None) && Truthy(b) && !b.Str?)
  {
  }

  /** A non-empty text with no white space at its ends and only single
      plain spaces inside, such as "Mercedes Benz". */
  predicate CleanText(s: string) {
    s != "" && Trimmed(s) && SingleSpaced(s)
  }

  /** Two clean texts joined by one space make a clean text. */
  lemma JoinCleanTexts(b: string, m: string)
    requires CleanText(b) && CleanText(m)
    ensures CleanText(b + " " + m)
  {
    var s := b + " " + m;
    forall i | 0 <= i < |s| && IsSpace(s[i])
      ensures s[i] == ' ' && (i + 1 < |s| ==> !IsSpace(s[i + 1]))
    {
      if i < |b| {
        assert s[i] == b[i];
        if i + 1 < |b| {
          assert s[i + 1] == b[i + 1];
        }
      } else if i == |b| {
        assert s[i + 1] == m[0];
      } else {
        assert s[i] == m[i - |b| - 1];
        if i + 1 < |s| {
          assert s[i + 1] == m[i - |b|];
        }
      }
    }
    assert s[0] == b[0];
    assert s[|s| - 1] == m[|m| - 1];
  }

  /** The `cars` name is "Vehicle listing" when neither brand nor model is
      truthy, and otherwise single-spaced with no white space at its ends. */
  lemma {:induction false} CarNameShape(row: Row)
    ensures var parts := TruthyTexts([Get(row, "brand"), Get(row, "model")]);
      (parts == [] ==> CarName(row) == "Vehicle listing")
      && (parts != [] ==> SingleSpaced(CarName(row)) && Trimmed(CarName(row)))
  {
    var parts := TruthyTexts([Get(row, "brand"), Get(row, "model")]);
    if parts != [] {
      var collapsed := CollapseSpaces(Join(parts, " "));
      CollapseIsSingleSpaced(Join(parts, " "));
      TrimKeepsSingleSpaced(collapsed);
    }
  }

  /** For clean brand and model texts the name is brand then model, each
      kept only when truthy, joined by one space. */
  lemma {:induction false} CarNameOfCleanTexts(row: Row)
    ensures var b, m := Get(row, "brand"), Get(row, "model");
      && (b.Str? && CleanText(b.s) && m.Str? && CleanText(m.s) ==> CarName(row) == b.s + " " + m.s)
      && (b.Str? && CleanText(b.s) && !Truthy(m) ==> CarName(row) == b.s)
      && (!Truthy(b) && m.Str? && CleanText(m.s) ==> CarName(row) == m.s)
  {
    var b, m := Get(row, "brand"), Get(row, "model");
    var parts := TruthyTexts([b, m]);
    assert TruthyTexts([m]) == (if Truthy(m) then [ToText(m)] else []) by {
      assert [m][1..] == [];
    }
    assert parts == (if Truthy(b) then [ToText(b)] else []) + TruthyTexts([m]) by {
      assert [b, m][1..] == [m];
    }
    if b.Str? && CleanText(b.s) && m.Str? && CleanText(m.s) {
      assert parts == [b.s, m.s];
      assert [b.s, m.s][1..] == [m.s];
      assert Join(parts, " ") == b.s + " " + m.s;
      JoinCleanTexts(b.s, m.s);
      CleanNameKept(b.s + " " + m.s);
    } else if b.Str? && CleanText(b.s) && !Truthy(m) {
      assert parts == [b.s];
      CleanNameKept(b.s);
    } else if !Truthy(b) && m.Str? && CleanText(m.s) {
      assert parts == [m.s];
      CleanNameKept(m.s);
    }
  }

  /** Collapsing and trimming leave a clean text as it is. */
  lemma CleanNameKept(s: string)
    requires CleanText(s)
    ensures Trim(CollapseSpaces(s)) == s
  {
    CollapseFixesSingleSpaced(s);
    TrimNoop(s);
  }

  /** A brand of only white space and no model gives an empty name rather
      than "Vehicle listing". */
  lemma BlankBrandGivesEmptyName(row: Row)
    requires Get(row, "brand") == Str("  ") && Get(row, "model") == Null
    ensures CarName(row) == ""
  {
    assert TruthyTexts([Get(row, "brand"), Get(row, "model")]) == ["  "] by {
      assert [Get(row, "brand"), Get(row, "model")][1..] == [Get(row, "model")];
    }
    assert CollapseSpaces("  ") == " " by {
      assert TrimStart("  ") == TrimStart(" ") == TrimStart("") == "";
    }
  }

  /** The `jumia` name is the trimmed product name when that is a
      non-blank string, else the trimmed brand name when that is one, else
      "Jumia product". */
  lemma JumiaNameRule(row: Row)
    ensures var p := Get(row, "product_name"); var b := Get(row, "brand_name");
      && (p.Str? && Trim(p.s) != "" ==> JumiaName(row) == Returned(Trim(p.s)))
      && (!Truthy(p) || (p.Str? && Trim(p.s) == "") ==>
            && (b.Str? && Trim(b.s) != "" ==> JumiaName(row) == Returned(Trim(b.s)))
            && (!Truthy(b) || (b.Str? && Trim(b.s) == "") ==> JumiaName(row) == Returned("Jumia product")))
  {
    TrimmedNameRule(Get(row, "product_name"));
    TrimmedNameRule(Get(row, "brand_name"));
  }

  /** `v && v.trim()` is the trimmed text of a non-blank string, and no
      candidate for a falsy value or a blank string. */
  lemma TrimmedNameRule(v: Value)
    ensures v.Str? && Trim(v.s) != "" ==> TrimmedName(v) == Returned(Some(Trim(v.s)))
    ensures !Truthy(v) || (v.Str? && Trim(v.s) == "") ==> TrimmedName(v) == Returned(None)
  {
    if v.Str? && Trim(v.s) != "" {
      assert v.s != "";
    }
  }

  /** The description is the default sentence when no detail column is
      truthy, and otherwise the present fragments joined by " • " in the
      fixed order year, location, seller (`cars`) or brand, discount,
      rating, review count (`jumia`). */
  lemma {:induction false} DescriptionRule(c: Category, row: Row)
    requires MapRow(c, row).Returned?
    ensures var details := if c == Cars then CarDetails(row) else JumiaDetails(row);
      var d := MapRow(c, row).value.description;
      (details == [] ==> d == DefaultDescription(c))
      && (details != [] ==> d == Join(details, DetailSeparator))
  {
    var details := if c == Cars then CarDetails(row) else JumiaDetails(row);
    assert forall i :: 0 <= i < |details| ==> details[i] != "" by {
      forall i | 0 <= i < |details| ensures details[i] != "" {
        FragmentsNonEmpty(c, row, i);
      }
    }
  }

  lemma FragmentsNonEmpty(c: Category, row: Row, i: int)
    requires 0 <= i < |if c == Cars then CarDetails(row) else JumiaDetails(row)|
    ensures (if c == Cars then CarDetails(row) else JumiaDetails(row))[i] != ""
  {
    var v := if c == Cars then Get(row, "year") else Get(row, "brand_name");
    if Truthy(Get(row, "reviews_count")) {
      assert ToText(Get(row, "reviews_count")) + " reviews" != "" by {
        assert |ToText(Get(row, "reviews_count")) + " reviews"| >= 8;
      }
    }
  }

  /** The worked example: a `jumia` row with an id, a name, a price and a
      discount. */
  lemma JumiaExample()
    ensures var row := map["source_id" := Num(42.0), "product_name" := Str("Phone X"),
                           "price" := Num(150000.0), "discount" := Str("10%")];
      var r := MapRow(Jumia, row);
      && r.Returned?
      && r.value.id == "42"
      && r.value.name == "Phone X"
      && r.value.price == 150000.0
      && r.value.description == "Discount: 10%"
      && r.value.imageUrl == Str(PlaceholderImage(Jumia))
      && r.value.discount == Str("10%")
      && r.value.brand == Null
  {
    var row := map["source_id" := Num(42.0), "product_name" := Str("Phone X"),
                   "price" := Num(150000.0), "discount" := Str("10%")];
    assert (42.0).Floor == 42;
    assert IntText(42) == "42";
    TrimNoop("Phone X");
    assert Fragment("Brand: ", Get(row, "brand_name"), "") == [];
    assert Get(row, "discount") == Str("10%");
    assert "Discount: " + "10%" + "" == "Discount: 10%";
    assert Fragment("Discount: ", Get(row, "discount"), "") == ["Discount: 10%"];
    assert Fragment("Rating: ", Get(row, "reviews_rating"), "") == [];
    assert Fragment("", Get(row, "reviews_count"), " reviews") == [];
    assert JumiaDetails(row) == ["Discount: 10%"];
  }

  // ---------------------------------------------------------------------
  // buildQuery

  /** A SQL text with `?` placeholders and the values bound to them. */
  datatype Query = Query(sql: string, params: seq<Value>)

  /** Every placeholder has exactly one bound value. */
  predicate PlaceholdersMatch(q: Query) {
    CountChar(q.sql, '?') == |q.params|
  }

  /** The configured names contain no `?`, so only the code adds placeholders. */
  predicate PlaceholderFree(config: Config) {
    && '?' !in config.table && '?' !in config.idColumn && '?' !in config.orderBy
    && forall i :: 0 <= i < |config.columns| ==> '?' !in config.columns[i]
  }

  /** `SELECT ${config.selectFields} FROM ${config.table}` */
  function SelectFrom(config: Config): string {
    "SELECT " + SelectFields(config) + " FROM " + config.table
  }

  lemma SelectFromPlaceholders(config: Config)
    requires PlaceholderFree(config)
    ensures CountChar(SelectFrom(config), '?') == 0
  {
    JoinAvoids(config.columns, ",\n      ", '?');
    CountCharAbsent(SelectFrom(config), '?');
  }

  /** A filter ` WHERE <column> = ?` holds one placeholder. */
  lemma EqualsPlaceholder(prefix: string, column: string)
    requires '?' !in prefix && '?' !in column
    ensures CountChar(prefix + " WHERE " + column + " = ?", '?') == 1
  {
    CountCharAbsent(prefix + " WHERE " + column, '?');
    CountCharAppend(prefix + " WHERE " + column, " = ?", '?');
    assert CountChar(" = ?", '?') == 1 by {
      assert " = ?"[1..] == "= ?" && "= ?"[1..] == " ?" && " ?"[1..] == "?";
      assert "?"[1..] == "";
    }
  }

  /** `buildQuery(config, id)`: a lookup by primary key when `id` is truthy,
      otherwise the whole table in the configured order. */
  method BuildQuery(config: Config, id: Value) returns (q: Query)
    ensures Truthy(id) ==>
      q.sql == SelectFrom(config) + " WHERE " + config.idColumn + " = ?"
      && q.params == [id]
    ensures !Truthy(id) ==>
      q.params == []
      && q.sql == SelectFrom(config) + (if config.orderBy != "" then " ORDER BY " + config.orderBy else "")
    ensures PlaceholderFree(config) ==> PlaceholdersMatch(q)
  {
    var query := SelectFrom(config);
    var params: seq<Value> := [];
    if Truthy(id) {
      query := query + " WHERE " + config.idColumn + " = ?";
      params := params + [id];
      if PlaceholderFree(config) {
        JoinAvoids(config.columns, ",\n      ", '?');
        EqualsPlaceholder(SelectFrom(config), config.idColumn);
      }
    } else if config.orderBy != "" {
      query := query + " ORDER BY " + config.orderBy;
      if PlaceholderFree(config) {
        JoinAvoids(config.columns, ",\n      ", '?');
        CountCharAbsent(query, '?');
      }
    } else if PlaceholderFree(config) {
      SelectFromPlaceholders(config);
    }
    q := Query(query, params);
  }

  lemma EightColumnsFree(cols: seq<string>)
    requires |cols| == 8
    requires '?' !in cols[0] && '?' !in cols[1] && '?' !in cols[2] && '?' !in cols[3]
    requires '?' !in cols[4] && '?' !in cols[5] && '?' !in cols[6] && '?' !in cols[7]
    ensures forall i :: 0 <= i < |cols| ==> '?' !in cols[i]
  {
    forall i | 0 <= i < |cols| ensures '?' !in cols[i] {
      if i < 4 {
        assert i == 0 || i == 1 || i == 2 || i == 3;
      } else {
        assert i == 4 || i == 5 || i == 6 || i == 7;
      }
    }
  }

  /** Neither registry entry puts a `?` into its table metadata. */
  lemma RegistryPlaceholderFree(c: Category)
    ensures PlaceholderFree(ConfigOf(c))
  {
    if c == Cars {
      CarsColumnsFree();
    } else {
      JumiaColumnsFree();
    }
  }

  lemma CarsColumnsFree()
    ensures forall i :: 0 <= i < |CarsColumns| ==> '?' !in CarsColumns[i]
  {
    var cols := CarsColumns;
    assert '?' !in cols[0] && '?' !in cols[1] && '?' !in cols[2] && '?' !in cols[3];
    assert '?' !in cols[4] && '?' !in cols[5] && '?' !in cols[6] && '?' !in cols[7];
    EightColumnsFree(cols);
  }

  lemma JumiaColumnsFree()
    ensures forall i :: 0 <= i < |JumiaColumns| ==> '?' !in JumiaColumns[i]
  {
    var cols := JumiaColumns;
    assert '?' !in cols[0] && '?' !in cols[1] && '?' !in cols[2] && '?' !in cols[3];
    assert '?' !in cols[4] && '?' !in cols[5] && '?' !in cols[6] && '?' !in cols[7];
    EightColumnsFree(cols);
  }
}
