# Product catalog and recommendations: a Dafny model

This project models two parts of a product catalog whose products come from
two scraped sources, CoinAfrique cars (`cars`) and Jumia products (`jumia`).
It also proves properties of both models.

- **The catalog API** (`backend/routes/products.js`):
  - the category registry and its two row projections (`mapRow`);
  - the SQL that `buildQuery` builds;
  - category validation and its error text;
  - the not-found rule of the single-product route and the combined
    listing of all categories;
  - the recommendation join of `fetchRecommendations`. It reads
    precomputed association edges (support, confidence, lift), fetches
    the recommended products with one `IN (...)` query and joins both in
    edge order.
- **The product page** (`my-app/src/pages/productPage.jsx`):
  - the per-category deduplication of recommendations;
  - the recently-viewed list kept in browser storage (newest first, at
    most 6 entries);
  - the favorites toggle (newest first, at most 30 entries);
  - the "recently viewed" strip, which hides the product being shown.

The database is an input. A query is a SQL text with its bound values. The
rows it returns, or the driver error, are parameters of the pure response
functions (`Routes.ListCategory`, `Routes.GetProduct`,
`Routes.GetRecommendations`, `Routes.ListAll`). The `Serve…` methods build
the queries (`Catalog.BuildQuery` for the listing and single-product
routes, `Recommendations.EdgeQuery` and `Recommendations.ProductQuery` for
the recommendations route), pass them to a `Database` function and answer
with those response functions. Browser storage is the
`ProductPage.ViewerStorage` class, whose two list fields the page's effects
and handlers reassign.

Modules and files:

| file | module | contents |
|---|---|---|
| `js_values.dfy` | `JsValues` | JavaScript values and the built-ins the code uses: truthiness, `||`, `??`, `String(v)`, `Number(v)`, `trim`, the `/\s+/g` collapse, `join` |
| `sequences.dfy` | `Sequences` | subsequences and `slice(0, n)` |
| `catalog.dfy` | `Catalog` | registry, `mapRow`, lookup, error text, `buildQuery` |
| `recommendations.dfy` | `Recommendations` | the two recommendation queries, the product index, the join |
| `routes.dfy` | `Routes` | the four handlers, and the lookup as the source writes it |
| `product_page.dfy` | `ProductPage` | deduplication, recently viewed, favorites |

Where this model and the project's own description of its behaviour differ,
the model follows the code:

- A product's price can be negative. `Number(row.price) || 0` keeps a
  negative number (`Catalog.PriceSign`).
- The two projections do not produce the same attribute set.
  - `cars` leaves `discount`, `reviewsRating` and `reviewsCount` out.
  - `jumia` leaves `model`, `location`, `sellerName` and `year` out.
  - Both set the seven device attributes to null (`Catalog.AttributeShape`).
- A `cars` row whose brand is only white space, and which has no model,
  gets the empty name. It does not get "Vehicle listing"
  (`Catalog.BlankBrandGivesEmptyName`).

## Model

| member | source | states |
|---|---|---|
| JsValues.Trim | backend/routes/products.js:31 | `trim()` leaves no white space at either end |
| JsValues.TrimRemovesOnlySpace | backend/routes/products.js:31 | `trim()` keeps the piece of the text that starts after its leading white space, and everything cut off before and after that piece is white space |
| JsValues.CollapseIsSingleSpaced | backend/routes/products.js:31 | after `/\s+/g` is replaced by one space, no two white-space characters are adjacent and every white-space character is a plain space |
| JsValues.CollapseFixesSingleSpaced | backend/routes/products.js:31 | collapsing a text that is already single-spaced changes nothing |
| JsValues.TrimKeepsSingleSpaced | backend/routes/products.js:31 | trimming a single-spaced text keeps it single-spaced |
| JsValues.JoinEmpty | backend/routes/products.js:33-44 | joining non-empty fragments gives "" only for no fragments, which is what makes `details \|\| fallback` choose the fallback |
| JsValues.IntTextValue | backend/routes/products.js:42 | `String(n)` of a natural number is a digit string whose decimal value is `n` |
| JsValues.NumberOfTextRoundTrip | backend/routes/products.js:45 | `Number(String(n))` is `n` for every integer, so an integral price stored as text reads back as that number |
| Catalog.Lookup | backend/routes/products.js:121 | a name selects a category exactly when it is one of `cars`, `jumia`, and then the category's key is that name |
| Catalog.LookupAsWritten | backend/routes/products.js:200-202 | the plain object lookup finds a registered category exactly for `cars`, `jumia`, and a truthy inherited member exactly for the names `Object.prototype` provides |
| Catalog.InheritedNamePassesValidation | backend/routes/products.js:200-204 | `constructor` passes the `!config` check although it is not a valid category |
| Catalog.MapRow | backend/routes/products.js:28-61 | every projected product has `id = String(source_id)`, the category's key, a truthy image that is the column when truthy and the category placeholder otherwise, and price 0 when the column is missing or not numeric, else its numeric value; `cars` never throws |
| Catalog.AttributeShape | backend/routes/products.js:48-60 | device attributes nulled; the other category's attributes absent; every optional attribute absent, null or the truthy column value |
| Catalog.PriceSign | backend/routes/products.js:45 | the price is negative exactly when the column holds a negative number |
| Catalog.JumiaThrows | backend/routes/products.js:85-88 | the `jumia` projection throws exactly when `.trim()` is reached on a truthy name column that is not a string |
| Catalog.JumiaName | backend/routes/products.js:85-88 | a `jumia` name is never empty and never has white space at its ends |
| Catalog.JumiaNameRule | backend/routes/products.js:85-88 | the name is the trimmed product name, else the trimmed brand name, else "Jumia product" |
| Catalog.CarNameShape | backend/routes/products.js:29-32 | the `cars` name is "Vehicle listing" when neither brand nor model is truthy, and otherwise single-spaced and trimmed |
| Catalog.CarNameOfCleanTexts | backend/routes/products.js:29-32 | for brand and model texts without white space at their ends or doubled inside ("Mercedes Benz"), the name is brand, a space and model when both are truthy, the brand alone when the model is falsy, and the model alone when the brand is falsy |
| Catalog.BlankBrandGivesEmptyName | backend/routes/products.js:29-32 | a blank brand without a model yields the empty name |
| Catalog.DescriptionRule | backend/routes/products.js:33-44 | the description is the default sentence when no detail column is truthy, else the fragments joined by " • " in the fixed order |
| Catalog.JumiaExample | backend/routes/products.js:84-117 | a concrete `jumia` row projects to id "42", name "Phone X", price 150000, description "Discount: 10%", the placeholder image, discount "10%" and a null brand |
| Catalog.Describe | backend/routes/products.js:39-44 | no fragments give the fallback; non-empty fragments give their join |
| Catalog.BuildQuery | backend/routes/products.js:123-135 | with a truthy id, the query is the select followed by ` WHERE <idColumn> = ?` with parameters `[id]` and no `ORDER BY`; without one, there are no parameters and ` ORDER BY <orderBy>` is added exactly when `orderBy` is set; every placeholder has one bound value |
| Catalog.RegistryPlaceholderFree | backend/routes/products.js:6-119 | no registry entry puts a `?` into its table, id column, order or selected columns |
| Recommendations.EdgeLimit | backend/routes/products.js:146 | the edge limit is the configured limit when truthy, else 6 |
| Recommendations.RegistryEdgeLimit | backend/routes/products.js:21-27 | both registry entries have an edge table and a limit of 8 |
| Recommendations.EdgeQuery | backend/routes/products.js:147-158 | the edge query binds `[productId, limit]` and has exactly two placeholders |
| Recommendations.PlaceholdersCount | backend/routes/products.js:165 | the `IN` list holds one placeholder per recommended id |
| Recommendations.ProductQuery | backend/routes/products.js:164-172 | the product query binds exactly the recommended ids and has one placeholder for each |
| Recommendations.IssuedQueries | backend/routes/products.js:142-172 | no query without an edge table; no product query without edges; otherwise a product query for the recommended ids in edge order |
| Recommendations.ProductIndex | backend/routes/products.js:173-175 | the index has one key per distinct `String(source_id ?? row[idColumn])`, each entry is filed under its own key, and where keys repeat the last row wins |
| Recommendations.MetaField | backend/routes/products.js:186-190 | a statistic is null exactly when the edge's field is null; a number is passed through unchanged and a missing field becomes NaN |
| Recommendations.Resolved | backend/routes/products.js:177-193 | the kept edges are a subsequence of the edges, all of whose targets were fetched, one fewer per dangling edge, and all edges when none dangles |
| Recommendations.JoinEdgesThrows | backend/routes/products.js:177-193 | the join throws exactly when the projection of some edge's fetched product throws |
| Recommendations.JoinEdgesReturned | backend/routes/products.js:177-193 | otherwise the i-th recommendation is the projected product of the i-th kept edge, with that edge's statistics |
| Recommendations.FetchRecommendations | backend/routes/products.js:141-194 | `[]` without an edge table or without edges; never more results than edges; it fails exactly when a projection throws |
| Recommendations.RecommendationIds | backend/routes/products.js:173-193 | when every product row has a `source_id`, the result ids are the targets of the kept edges, in edge order, each with its edge's statistics |
| Recommendations.OneDanglingEdge | backend/routes/products.js:179-182 | one dangling edge makes the result one shorter than the edges |
| Recommendations.AllEdgesResolved | backend/routes/products.js:177-193 | when every target was fetched, there is one result per edge in edge order |
| Routes.InvalidCategoryText | backend/routes/products.js:137-139 | the error text is "Invalid category. Must be one of: cars, jumia" |
| Routes.ProjectAllRows | backend/routes/products.js:209 | `rows.map(config.mapRow)` projects row i to product i and fails exactly when one projection throws |
| Routes.ListCategory | backend/routes/products.js:197-214 | 400 with the error text exactly for an invalid category; for a valid one, 200 exactly when the query returns rows that all project, and 500 "Failed to fetch products" otherwise; 200 lists every row's projection in row order |
| Routes.ServeCategory | backend/routes/products.js:197-214 | a valid category sends one unparameterised listing query in the configured order and answers as `ListCategory`; an invalid one sends nothing |
| Routes.GetProduct | backend/routes/products.js:235-256 | 400 exactly for an invalid category; 404 "Product not found" exactly when the lookup returns no rows; for a non-empty answer, 200 exactly when the first row projects, with that projection, and 500 "Failed to fetch product" when it throws; a database error gives 500 |
| Routes.ServeProduct | backend/routes/products.js:235-256 | a valid category sends one lookup by id with the id as its only parameter |
| Routes.RecommendationsFor | backend/routes/products.js:141-162 | no edge table or no edges give 200 `[]`; a failed edge or product query gives 500 "Failed to fetch recommendations"; with edges and product rows, 200 exactly when the join succeeds, carrying the join |
| Routes.GetRecommendations | backend/routes/products.js:217-232 | 400 exactly for an invalid category, otherwise the recommendations of its registry entry |
| Routes.SendRecommendationQueries | backend/routes/products.js:146-172 | the edge query for the product is sent first; the product query for the edges' targets is sent exactly when the edge query returns rows; every query has one bound value per placeholder |
| Routes.ServeRecommendations | backend/routes/products.js:141-172 | sends the edge query and, only when it returns edges, the product query for their targets; every query has matching placeholders |
| Routes.ListAll | backend/routes/products.js:274-287 | 200 exactly when both categories' queries and projections succeed, and then the `cars` listing followed by the `jumia` listing |
| Routes.ListAllGrouped | backend/routes/products.js:274-283 | the combined listing has one product per row, and every `cars` product precedes every `jumia` product |
| Routes.ServeAll | backend/routes/products.js:259-288 | a truthy `category` parameter sends no query for an invalid name and exactly the one listing query for a valid one, answering as `GET /:category`; otherwise one listing query per registered category, in registration order, answered as `ListAll` |
| Routes.QueryEach | backend/routes/products.js:274-281 | one listing query per given category, in order, with the database's answer to each |
| Routes.GetRecommendationsAsWritten | backend/routes/products.js:217-227 | with the object lookup as written, an inherited name such as `constructor` gets 200 with an empty list |
| Routes.ListCategoryAsWritten | backend/routes/products.js:197-213 | with the object lookup as written, an inherited name always gets 500 |
| Routes.GetProductAsWritten | backend/routes/products.js:235-254 | with the object lookup as written, an inherited name gets 404 or 500, never 400 |
| Routes.InheritedNameNotRejected | backend/routes/products.js:200-204 | `constructor` is not rejected by the handlers as written, and is rejected with 400 by all three handlers that use the registry's own keys |
| ProductPage.CurrentId | my-app/src/pages/productPage.jsx:89 | a product is filed under `String(product.id)` when that is truthy, else under the URL's id |
| ProductPage.Without | my-app/src/pages/productPage.jsx:98-100 | the filtered list is a subsequence with no entry under (id, category), one shorter per match, and unchanged when nothing matches |
| ProductPage.RecordedViewShape | my-app/src/pages/productPage.jsx:96-103 | after a view the entry is first and nowhere else, there are at most 6 entries, and the rest are the first earlier entries under other (id, category) pairs in their earlier order; an entry with the same id and another category is kept |
| ProductPage.RecordedViewIdempotent | my-app/src/pages/productPage.jsx:96-103 | viewing the same product twice in a row is the same as viewing it once |
| ProductPage.ViewAgainMovesToFront | my-app/src/pages/productPage.jsx:98-101 | viewing A, B, A from an empty list gives [A, B] |
| ProductPage.Toggle | my-app/src/pages/productPage.jsx:133-149 | the flag becomes the negation of prior membership; a present product is removed with all its duplicates; an absent one is prepended and the list capped at 30 |
| ProductPage.ToggleFlagMatchesList | my-app/src/pages/productPage.jsx:139-149 | after a toggle the flag is true exactly when the product is in the new list |
| ProductPage.ToggleTwiceRestores | my-app/src/pages/productPage.jsx:139-149 | toggling an absent product into a list of fewer than 30 and back restores the list |
| ProductPage.ToggleKeepsCap | my-app/src/pages/productPage.jsx:145 | a list of at most 30 entries stays at most 30 |
| ProductPage.ViewerStorage.RecordView | my-app/src/pages/productPage.jsx:85-107 | the stored recently-viewed list becomes the list after the view; the favorites are untouched |
| ProductPage.ViewerStorage.RefreshFavorite | my-app/src/pages/productPage.jsx:109-121 | the flag is whether the favorites hold the shown product |
| ProductPage.ViewerStorage.ToggleFavorite | my-app/src/pages/productPage.jsx:123-153 | the stored favorites and the flag become those of `Toggle`; the recently-viewed list is untouched |
| ProductPage.ViewerStorage.RecentlyViewedToShow | my-app/src/pages/productPage.jsx:167-169 | the strip is a subsequence of the stored list with exactly the entries under the current (id, category) removed |
| ProductPage.ShownAfterView | my-app/src/pages/productPage.jsx:96-103 | right after a view the strip is the stored list without its first entry |
| ProductPage.DedupeRecommendations | my-app/src/pages/productPage.jsx:20-34 | `[]` for a body that is not an array, the body unchanged outside `jumia`, and for `jumia` the loop with its `seen` set keeps the first item of each key |
| ProductPage.DedupeShape | my-app/src/pages/productPage.jsx:23-33 | the `jumia` result is a subsequence with pairwise distinct keys, holds every key of the input, and each kept item is the first input item with its key |
| ProductPage.FirstOccurrencesKeys | my-app/src/pages/productPage.jsx:23-33 | the kept keys are the input's keys except those already seen |

## Left out

- HTTP and SQL. The Express router, status plumbing and JSON serialisation
  are abstracted into the `Response` value. The MySQL pool is the
  `Database` parameter: a function from a query to its rows or an error. A
  query is therefore sent once and answered deterministically.
- Logging (`console.error`) has no effect on any result and is left out.
- `Promise.all`. Running the queries of the combined listing concurrently
  changes nothing that is observable here. They are sent in a loop in
  registration order; any failure gives 500.
- `Number(v)` reads decimal literals only: sign, digits and an optional
  fraction, after trimming. Exponents, hexadecimal, `Infinity` and
  numeric separators give NaN in the model.
- `String(x)` of a non-integer writes at most 20 fraction digits. It is
  not JavaScript's shortest round-trip form.
- `String(x)` never uses exponent form. JavaScript writes numbers of
  magnitude 1e21 or more, and non-zero numbers below 1e-6, as `"1e+21"` or
  `"1e-7"`, but `JsValues.NumberText` writes every digit.
- Numbers are exact reals, so floating-point rounding is not modelled.
- Catalog.MapRow: the projection is given the row as a map from column
  names to values. A column holding a date, a buffer or other driver
  types is not modelled.
- ProductPage.DedupeKey: array elements that are not objects (`null`,
  numbers) are not modelled. Every element is a JSON object.
- Browser storage I/O, `JSON.parse`/`JSON.stringify` and their error
  recovery (productPage.jsx:73-83, the `try`/`catch` around each update)
  are left out. Storage is the `ViewerStorage` class's fields. A stored
  entry's `undefined` field stands for a field that JSON drops.
- The initial load of the recently-viewed list from storage
  (productPage.jsx:73-83) is the `ViewerStorage` constructor's argument.
- The page's fetch effect (productPage.jsx:36-71) is left out: axios, the
  `isMounted` guard, and loading and error state. Only the deduplication
  it applies to the response is modelled.
- React rendering and animation are left out.
- `my-app/src/components/ProductCard.jsx` is not part of this model. Its
  confidence chip is floating-point formatting and markup.
- `typeof window === 'undefined'` guards are left out. The model always
  runs in a browser.

## Findings

| source | as written | input that shows it | evidently intended | confidence | as-written member | corrected member |
|---|---|---|---|---|---|---|
| backend/routes/products.js:200-204 | `CATEGORY_CONFIG[category]` on a plain object literal also finds the members every object inherits, and `if (!config)` lets those truthy values through. The same lookup sits at 220-224, 238-242 and 264-267. `Routes.InheritedNameNotRejected` proves the consequences: the recommendations route answers 200 `[]`, the listing route 500, and the product route 404 or 500 | `GET /api/products/constructor/1/recommendations` (likewise `__proto__`, `toString`, `hasOwnProperty`) | every name other than `cars` and `jumia` is rejected with 400 and the invalid-category error | not executed | Routes.GetRecommendationsAsWritten | Routes.GetRecommendations |
