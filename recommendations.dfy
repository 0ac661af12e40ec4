/** `fetchRecommendations` of backend/routes/products.js: look up the
    precomputed edges of a product, fetch the recommended products in one
    `IN (...)` query, and join the two result sets in edge order. The
    database is not modelled: the rows each query returns are parameters. */
module Recommendations {
  import opened JsValues
  import opened Catalog
  import opened Sequences

  const DefaultEdgeOrder := "confidence DESC, lift DESC"
  const DefaultEdgeLimit: Value := Num(6.0)

  /** `config.recommendations?.table` is truthy. */
  predicate HasRecommendationTable(config: Config) {
    config.recommendations.Some? && config.recommendations.value.table != ""
  }

  /** `config.recommendations.limit || 6` */
  function EdgeLimit(rc: RecommendationConfig): (v: Value)
    ensures Truthy(v)
    ensures Truthy(rc.limit) ==> v == rc.limit
    ensures !Truthy(rc.limit) ==> v == DefaultEdgeLimit
  {
    OrElse(rc.limit, DefaultEdgeLimit)
  }

  /** Both registry entries ask for at most 8 edges. */
  lemma RegistryEdgeLimit(c: Category)
    ensures HasRecommendationTable(ConfigOf(c))
    ensures EdgeLimit(ConfigOf(c).recommendations.value) == Num(8.0)
  {
  }

  // ---------------------------------------------------------------------
  // The two queries

  /** The configured edge-table names contain no `?`. */
  predicate EdgeConfigFree(rc: RecommendationConfig) {
    '?' !in rc.table && '?' !in rc.sourceColumn && '?' !in rc.targetColumn && '?' !in rc.orderBy
  }

  /** Neither registry entry puts a `?` into its edge-table metadata. */
  lemma RegistryEdgeConfigFree(c: Category)
    ensures HasRecommendationTable(ConfigOf(c))
    ensures EdgeConfigFree(ConfigOf(c).recommendations.value)
  {
    DefaultOrderFree();
    assert ConfigOf(c).recommendations.value.orderBy == DefaultEdgeOrder;
  }

  lemma DefaultOrderFree()
    ensures '?' !in DefaultEdgeOrder
  {
    assert DefaultEdgeOrder == "confidence DESC," + " lift DESC";
  }

  /** The selected edge columns. */
  function EdgeColumns(rc: RecommendationConfig): string {
    "\n    SELECT " + rc.targetColumn + " AS recommended_id,"
      + "\n           support," + "\n           confidence," + "\n           lift"
  }

  /** The edge query up to its first placeholder. */
  function EdgeHead(rc: RecommendationConfig): string {
    EdgeColumns(rc) + "\n    FROM " + rc.table + "\n    WHERE " + rc.sourceColumn
  }

  /** The edge query after its first placeholder, up to its second. */
  function EdgeMiddle(rc: RecommendationConfig): string {
    "\n    ORDER BY " + EdgeOrder(rc) + "\n    LIMIT "
  }

  lemma EdgeHeadFree(rc: RecommendationConfig)
    requires EdgeConfigFree(rc)
    ensures '?' !in EdgeHead(rc) && '?' !in EdgeMiddle(rc)
  {
    assert '?' !in " AS recommended_id,";
    assert '?' !in "\n           support," && '?' !in "\n           confidence," && '?' !in "\n           lift";
    assert '?' !in EdgeColumns(rc);
    DefaultOrderFree();
  }

  function EdgeOrder(rc: RecommendationConfig): string {
    if rc.orderBy != "" then rc.orderBy else DefaultEdgeOrder
  }

  /** The strongest edges out of `productId`, at most `EdgeLimit` of them. */
  function EdgeQuery(rc: RecommendationConfig, productId: Value): (q: Query)
    ensures q.params == [productId, EdgeLimit(rc)]
    ensures EdgeConfigFree(rc) ==> PlaceholdersMatch(q)
  {
    var q := Query(EdgeHead(rc) + " = ?" + EdgeMiddle(rc) + "?" + "\n  ", [productId, EdgeLimit(rc)]);
    if EdgeConfigFree(rc) then EdgeQueryPlaceholders(rc); q else q
  }

  lemma EdgeQueryPlaceholders(rc: RecommendationConfig)
    requires EdgeConfigFree(rc)
    ensures CountChar(EdgeHead(rc) + " = ?" + EdgeMiddle(rc) + "?" + "\n  ", '?') == 2
  {
    var head := EdgeHead(rc);
    var middle := EdgeMiddle(rc);
    EdgeHeadFree(rc);
    SinglePlaceholder(head + " = ");
    assert head + " = ?" == head + " = " + "?";
    SinglePlaceholder(middle);
    CountCharAbsent("\n  ", '?');
    CountCharAppend(head + " = ?", middle + "?", '?');
    assert head + " = ?" + middle + "?" == head + " = ?" + (middle + "?");
    CountCharAppend(head + " = ?" + middle + "?", "\n  ", '?');
  }

  /** A text without `?` followed by one `?` holds one placeholder. */
  lemma SinglePlaceholder(s: string)
    requires '?' !in s
    ensures CountChar(s + "?", '?') == 1
  {
    CountCharAbsent(s, '?');
    CountCharAppend(s, "?", '?');
    assert "?"[1..] == "";
  }

  /** `n` copies of `s`. */
  function Repeat(s: string, n: nat): (r: seq<string>)
    ensures |r| == n && forall i :: 0 <= i < n ==> r[i] == s
  {
    if n == 0 then [] else [s] + Repeat(s, n - 1)
  }

  /** `ids.map(() => '?').join(', ')` */
  function Placeholders(n: nat): string {
    Join(Repeat("?", n), ", ")
  }

  /** One placeholder per recommended id. */
  lemma {:induction false} PlaceholdersCount(n: nat)
    ensures CountChar(Placeholders(n), '?') == n
  {
    if n >= 2 {
      assert Repeat("?", n)[1..] == Repeat("?", n - 1);
      PlaceholdersCount(n - 1);
      SinglePlaceholder("");
      CountCharAbsent(", ", '?');
      CountCharAppend("?", ", ", '?');
      CountCharAppend("?" + ", ", Placeholders(n - 1), '?');
    } else if n == 1 {
      SinglePlaceholder("");
    }
  }

  /** The recommended products, by primary key. */
  function ProductQuery(config: Config, ids: seq<Value>): (q: Query)
    ensures q.params == ids
    ensures PlaceholderFree(config) ==> PlaceholdersMatch(q)
  {
    var head := "\n    SELECT " + SelectFields(config) + "\n    FROM " + config.table + "\n    WHERE " + config.idColumn + " IN (";
    var q := Query(head + Placeholders(|ids|) + ")\n  ", ids);
    if PlaceholderFree(config) then ProductQueryPlaceholders(config, head, |ids|); q else q
  }

  lemma ProductQueryPlaceholders(config: Config, head: string, n: nat)
    requires PlaceholderFree(config)
    requires head == "\n    SELECT " + SelectFields(config) + "\n    FROM " + config.table + "\n    WHERE " + config.idColumn + " IN ("
    ensures CountChar(head + Placeholders(n) + ")\n  ", '?') == n
  {
    JoinAvoids(config.columns, ",\n      ", '?');
    CountCharAbsent(head, '?');
    CountCharAbsent(")\n  ", '?');
    PlaceholdersCount(n);
    CountCharAppend(head, Placeholders(n), '?');
    CountCharAppend(head + Placeholders(n), ")\n  ", '?');
  }

  /** `rec.recommended_id` of every edge, in edge order. */
  function TargetIds(edges: seq<Row>): (ids: seq<Value>)
    ensures |ids| == |edges| && forall i :: 0 <= i < |edges| ==> ids[i] == Get(edges[i], "recommended_id")
  {
    if edges == [] then [] else [Get(edges[0], "recommended_id")] + TargetIds(edges[1..])
  }

  /** The queries `fetchRecommendations` sends, given the edge rows the
      first one returns: none without an edge table, no product lookup
      without edges, and a lookup of exactly the recommended ids otherwise. */
  function IssuedQueries(config: Config, productId: Value, edges: seq<Row>): (qs: seq<Query>)
    ensures !HasRecommendationTable(config) ==> qs == []
    ensures HasRecommendationTable(config) ==>
      var rc := config.recommendations.value;
      && 1 <= |qs| <= 2
      && qs[0].params == [productId, EdgeLimit(rc)]
      && (|qs| == 2 <==> edges != [])
      && (|qs| == 2 ==> qs[1].params == TargetIds(edges))
      && (PlaceholderFree(config) && EdgeConfigFree(rc) ==> forall i :: 0 <= i < |qs| ==> PlaceholdersMatch(qs[i]))
  {
    if !HasRecommendationTable(config) then []
    else
      var first := EdgeQuery(config.recommendations.value, productId);
      if edges == [] then [first] else [first, ProductQuery(config, TargetIds(edges))]
  }

  // ---------------------------------------------------------------------
  // Indexing the product rows

  /** `String(row.source_id ?? row[config.idColumn])` */
  function RowKey(config: Config, row: Row): string {
    ToText(Coalesce(Get(row, "source_id"), Get(row, config.idColumn)))
  }

  /** `String(rec.recommended_id)` */
  function EdgeTarget(edge: Row): string {
    ToText(Get(edge, "recommended_id"))
  }

  /** No later row shares the key of `rows[i]`. */
  ghost predicate LastWithKey(config: Config, rows: seq<Row>, i: int)
    requires 0 <= i < |rows|
  {
    forall j :: i < j < |rows| ==> RowKey(config, rows[j]) != RowKey(config, rows[i])
  }

  /** `new Map(rows.map(row => [key(row), row]))`: one entry per distinct
      key, and where keys repeat the last row wins. */
  function ProductIndex(config: Config, rows: seq<Row>): (m: map<string, Row>)
    ensures m.Keys == set i | 0 <= i < |rows| :: RowKey(config, rows[i])
    ensures forall k :: k in m ==> RowKey(config, m[k]) == k
    ensures forall i :: 0 <= i < |rows| && LastWithKey(config, rows, i) ==> m[RowKey(config, rows[i])] == rows[i]
    decreases |rows|
  {
    if rows == [] then map[]
    else
      var n := |rows| - 1;
      var prefix := ProductIndex(config, rows[..n]);
      var m := prefix[RowKey(config, rows[n]) := rows[n]];
      IndexStep(config, rows, rows[..n], prefix, m);
      m
  }

  lemma IndexStep(config: Config, rows: seq<Row>, init: seq<Row>, prefix: map<string, Row>, m: map<string, Row>)
    requires rows != [] && init == rows[..|rows| - 1]
    requires prefix.Keys == set i | 0 <= i < |init| :: RowKey(config, init[i])
    requires forall k :: k in prefix ==> RowKey(config, prefix[k]) == k
    requires forall i :: 0 <= i < |init| && LastWithKey(config, init, i) ==> prefix[RowKey(config, init[i])] == init[i]
    requires m == prefix[RowKey(config, rows[|rows| - 1]) := rows[|rows| - 1]]
    ensures m.Keys == set i | 0 <= i < |rows| :: RowKey(config, rows[i])
    ensures forall k :: k in m ==> RowKey(config, m[k]) == k
    ensures forall i :: 0 <= i < |rows| && LastWithKey(config, rows, i) ==> m[RowKey(config, rows[i])] == rows[i]
  {
    var n := |rows| - 1;
    assert forall i :: 0 <= i < n ==> init[i] == rows[i];
    forall i | 0 <= i < |rows| && LastWithKey(config, rows, i)
      ensures m[RowKey(config, rows[i])] == rows[i]
    {
      if i < n {
        assert RowKey(config, rows[n]) != RowKey(config, rows[i]);
        assert LastWithKey(config, init, i);
      }
    }
    var all := set i | 0 <= i < |rows| :: RowKey(config, rows[i]);
    forall k | k in all ensures k in m.Keys {
      var i :| 0 <= i < |rows| && RowKey(config, rows[i]) == k;
      if i < n {
        assert RowKey(config, init[i]) == k;
      }
    }
    forall k | k in m.Keys ensures k in all {
      if k != RowKey(config, rows[n]) {
        var i :| 0 <= i < n && RowKey(config, init[i]) == k;
        assert RowKey(config, rows[i]) == k;
      }
    }
  }

  // ---------------------------------------------------------------------
  // Joining edges with products

  /** `recommendationMeta`: the three edge statistics. */
  datatype Meta = Meta(support: Option<Number>, confidence: Option<Number>, lift: Option<Number>)

  /** A projected product with the statistics of the edge that led to it. */
  datatype Recommendation = Recommendation(product: Product, meta: Meta)

  /** `v !== null ? Number(v) : null` */
  function MetaField(v: Value): (r: Option<Number>)
    ensures r.None? <==> v == Null
    ensures v.Num? ==> r == Some(Finite(v.x))
    ensures v == Undefined ==> r == Some(NaN)
  {
    if v == Null then None else Some(ToNumber(v))
  }

  function MetaOf(edge: Row): Meta {
    Meta(MetaField(Get(edge, "support")), MetaField(Get(edge, "confidence")), MetaField(Get(edge, "lift")))
  }

  /** The edges whose target was fetched, in edge order. */
  function Resolved(edges: seq<Row>, index: map<string, Row>): (r: seq<Row>)
    ensures IsSubsequence(r, edges)
    ensures forall i :: 0 <= i < |r| ==> EdgeTarget(r[i]) in index
    ensures |r| + Dangling(edges, index) == |edges|
    ensures Dangling(edges, index) == 0 ==> r == edges
  {
    if edges == [] then []
    else
      var rest := Resolved(edges[1..], index);
      if EdgeTarget(edges[0]) in index then
        assert ([edges[0]] + rest)[1..] == rest;
        [edges[0]] + rest
      else
        rest
  }

  /** The number of edges whose target is not among the fetched products. */
  function Dangling(edges: seq<Row>, index: map<string, Row>): (n: nat)
    ensures n <= |edges|
    ensures n == 0 <==> forall i :: 0 <= i < |edges| ==> EdgeTarget(edges[i]) in index
  {
    if edges == [] then 0
    else
      var rest := Dangling(edges[1..], index);
      assert forall i :: 1 <= i < |edges| ==> edges[i] == edges[1..][i - 1];
      (if EdgeTarget(edges[0]) in index then 0 else 1) + rest
  }

  /** `rec` is what the join produces for `edge`. */
  predicate JoinedFrom(c: Category, edge: Row, index: map<string, Row>, rec: Recommendation) {
    && EdgeTarget(edge) in index
    && MapRow(c, index[EdgeTarget(edge)]) == Returned(rec.product)
    && rec.meta == MetaOf(edge)
  }

  /** Some fetched product that an edge points at cannot be projected. */
  predicate SomeProjectionThrows(c: Category, edges: seq<Row>, index: map<string, Row>) {
    exists i :: 0 <= i < |edges| && EdgeTarget(edges[i]) in index && MapRow(c, index[EdgeTarget(edges[i])]).Threw?
  }

  /** The `map` / `filter(Boolean)` pass: one recommendation per resolved
      edge, in edge order; a throwing projection aborts the whole pass. */
  function JoinEdges(c: Category, edges: seq<Row>, index: map<string, Row>): (r: Outcome<seq<Recommendation>>)
    ensures r.Returned? ==> |r.value| <= |edges|
  {
    if edges == [] then Returned([])
    else
      var rest := JoinEdges(c, edges[1..], index);
      var t := EdgeTarget(edges[0]);
      if t !in index then rest
      else match MapRow(c, index[t])
        case Threw(e) => Threw(e)
        case Returned(p) =>
          if rest.Threw? then rest else Returned([Recommendation(p, MetaOf(edges[0]))] + rest.value)
  }

  /** The join throws exactly when some resolved edge's product does. */
  lemma {:induction false} JoinEdgesThrows(c: Category, edges: seq<Row>, index: map<string, Row>)
    ensures JoinEdges(c, edges, index).Threw? <==> SomeProjectionThrows(c, edges, index)
  {
    if edges != [] {
      JoinEdgesThrows(c, edges[1..], index);
      assert forall i :: 1 <= i < |edges| ==> edges[i] == edges[1..][i - 1];
      if SomeProjectionThrows(c, edges[1..], index) {
        var i :| 0 <= i < |edges[1..]| && EdgeTarget(edges[1..][i]) in index && MapRow(c, index[EdgeTarget(edges[1..][i])]).Threw?;
        assert edges[i + 1] == edges[1..][i];
      }
    }
  }

  /** Otherwise it holds, in order, what each resolved edge leads to. */
  lemma {:induction false} JoinEdgesReturned(c: Category, edges: seq<Row>, index: map<string, Row>)
    requires JoinEdges(c, edges, index).Returned?
    ensures var rs := JoinEdges(c, edges, index).value; var kept := Resolved(edges, index);
      |rs| == |kept| && forall i :: 0 <= i < |kept| ==> JoinedFrom(c, kept[i], index, rs[i])
  {
    if edges != [] {
      JoinEdgesReturned(c, edges[1..], index);
      var rest := JoinEdges(c, edges[1..], index).value;
      var t := EdgeTarget(edges[0]);
      if t in index {
        var rec := Recommendation(MapRow(c, index[t]).value, MetaOf(edges[0]));
        assert JoinEdges(c, edges, index).value == [rec] + rest;
        assert Resolved(edges, index) == [edges[0]] + Resolved(edges[1..], index);
        JoinedCons(c, edges[0], index, rec, Resolved(edges[1..], index), rest);
      }
    }
  }

  lemma JoinedCons(c: Category, edge: Row, index: map<string, Row>, rec: Recommendation, kept: seq<Row>, rs: seq<Recommendation>)
    requires JoinedFrom(c, edge, index, rec)
    requires |rs| == |kept| && forall i :: 0 <= i < |kept| ==> JoinedFrom(c, kept[i], index, rs[i])
    ensures var kept', rs' := [edge] + kept, [rec] + rs;
      |rs'| == |kept'| && forall i :: 0 <= i < |kept'| ==> JoinedFrom(c, kept'[i], index, rs'[i])
  {
    var kept', rs' := [edge] + kept, [rec] + rs;
    forall i | 0 <= i < |kept'| ensures JoinedFrom(c, kept'[i], index, rs'[i]) {
      if i > 0 {
        assert kept'[i] == kept[i - 1] && rs'[i] == rs[i - 1];
      }
    }
  }

  /** `fetchRecommendations(config, productId)`, given the rows the edge
      query returns and the rows the product query returns. */
  function FetchRecommendations(config: Config, edges: seq<Row>, products: seq<Row>): (r: Outcome<seq<Recommendation>>)
    ensures !HasRecommendationTable(config) || edges == [] ==> r == Returned([])
    ensures r.Returned? ==> |r.value| <= |edges|
    ensures HasRecommendationTable(config) && edges != [] ==>
      (r.Threw? <==> SomeProjectionThrows(config.category, edges, ProductIndex(config, products)))
  {
    if !HasRecommendationTable(config) || edges == [] then Returned([])
    else
      var index := ProductIndex(config, products);
      JoinEdgesThrows(config.category, edges, index);
      JoinEdges(config.category, edges, index)
  }

  // ---------------------------------------------------------------------
  // Properties of the join

  /** Every recommendation is the product its edge points at, with the
      edge's statistics, and the edges keep their order: when every product
      row carries its `source_id`, the i-th recommendation's id is the
      target of the i-th resolved edge. */
  lemma RecommendationIds(config: Config, edges: seq<Row>, products: seq<Row>)
    requires HasRecommendationTable(config) && edges != []
    requires forall i :: 0 <= i < |products| ==> !Nullish(Get(products[i], "source_id"))
    requires FetchRecommendations(config, edges, products).Returned?
    ensures var rs := FetchRecommendations(config, edges, products).value;
      var kept := Resolved(edges, ProductIndex(config, products));
      && IsSubsequence(kept, edges)
      && |rs| == |kept|
      && forall i :: 0 <= i < |rs| ==> rs[i].product.id == EdgeTarget(kept[i]) && rs[i].meta == MetaOf(kept[i])
  {
    var index := ProductIndex(config, products);
    var rs := FetchRecommendations(config, edges, products).value;
    var kept := Resolved(edges, index);
    JoinEdgesReturned(config.category, edges, index);
    forall i | 0 <= i < |rs| ensures rs[i].product.id == EdgeTarget(kept[i]) {
      var k := EdgeTarget(kept[i]);
      assert JoinedFrom(config.category, kept[i], index, rs[i]);
      var row := index[k];
      assert RowKey(config, row) == k;
      assert row in index.Values;
      ProductRowHasSourceId(config, products, row);
    }
  }

  lemma ProductRowHasSourceId(config: Config, products: seq<Row>, row: Row)
    requires forall i :: 0 <= i < |products| ==> !Nullish(Get(products[i], "source_id"))
    requires row in ProductIndex(config, products).Values
    ensures !Nullish(Get(row, "source_id"))
    ensures RowKey(config, row) == ToText(Get(row, "source_id"))
  {
    var m := ProductIndex(config, products);
    var k :| k in m && m[k] == row;
    var kept := LastIndexOf(config, products, k);
    assert row == products[kept];
  }

  /** The row the index keeps under `k` is the last row with that key. */
  lemma LastIndexOf(config: Config, rows: seq<Row>, k: string) returns (i: nat)
    requires k in ProductIndex(config, rows)
    ensures i < |rows| && RowKey(config, rows[i]) == k && LastWithKey(config, rows, i)
    ensures ProductIndex(config, rows)[k] == rows[i]
  {
    var m := ProductIndex(config, rows);
    var j :| 0 <= j < |rows| && RowKey(config, rows[j]) == k;
    i := j;
    while i + 1 < |rows| && exists l :: i < l < |rows| && RowKey(config, rows[l]) == k
      invariant j <= i < |rows| && RowKey(config, rows[i]) == k
      decreases |rows| - i
    {
      var l :| i < l < |rows| && RowKey(config, rows[l]) == k;
      i := l;
    }
  }

  /** A product that comes back for no edge, or twice, changes nothing; an
      edge whose product did not come back is dropped: with exactly one
      such edge the result is one shorter than the edge list. */
  lemma OneDanglingEdge(config: Config, edges: seq<Row>, products: seq<Row>)
    requires HasRecommendationTable(config)
    requires Dangling(edges, ProductIndex(config, products)) == 1
    requires FetchRecommendations(config, edges, products).Returned?
    ensures |FetchRecommendations(config, edges, products).value| == |edges| - 1
  {
    JoinEdgesReturned(config.category, edges, ProductIndex(config, products));
  }

  /** When every edge's product comes back, the result has one entry per
      edge and in the same order. */
  lemma AllEdgesResolved(config: Config, edges: seq<Row>, products: seq<Row>)
    requires HasRecommendationTable(config) && edges != []
    requires forall i :: 0 <= i < |edges| ==> EdgeTarget(edges[i]) in ProductIndex(config, products)
    requires FetchRecommendations(config, edges, products).Returned?
    ensures var rs := FetchRecommendations(config, edges, products).value;
      |rs| == |edges| && forall i :: 0 <= i < |edges| ==> rs[i].meta == MetaOf(edges[i])
  {
    var index := ProductIndex(config, products);
    assert Dangling(edges, index) == 0;
    JoinEdgesReturned(config.category, edges, index);
  }
}
