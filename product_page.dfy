/** The list logic of my-app/src/pages/productPage.jsx: the per-category
    deduplication of recommendations, the recently-viewed list, the
    favorites toggle and the "recently viewed" strip. Browser storage is a
    pair of in-memory lists; JSON (de)serialisation is not modelled. */
module ProductPage {
  import opened JsValues
  import opened Sequences

  const RecentLimit: nat := 6
  const FavoriteLimit: nat := 30

  // ---------------------------------------------------------------------
  // Stored entries

  /** The summary the page stores for a product it shows. */
  datatype Entry = Entry(id: string, category: string, name: Value, price: real, imageUrl: Value)

  /** An entry as the JSON object it is stored as. */
  function EntryRow(e: Entry): (row: Row)
    ensures Get(row, "id") == Str(e.id) && Get(row, "category") == Str(e.category)
  {
    map["id" := Str(e.id), "category" := Str(e.category), "name" := e.name,
        "price" := Num(e.price), "imageUrl" := e.imageUrl]
  }

  /** `String(product.id || productId)`: the id the page files a product
      under, falling back to the id in the URL. */
  function CurrentId(product: Row, productId: string): (id: string)
    ensures Truthy(Get(product, "id")) ==> id == ToText(Get(product, "id"))
    ensures !Truthy(Get(product, "id")) ==> id == productId
  {
    ToText(OrElse(Get(product, "id"), Str(productId)))
  }

  /** The `entry` object built from the product on show. */
  function MakeEntry(product: Row, productId: string, category: string): (e: Entry)
    ensures e.id == CurrentId(product, productId) && e.category == category
    ensures e.price == NumberOrZero(Get(product, "price"))
  {
    Entry(CurrentId(product, productId), category, Get(product, "name"),
          NumberOrZero(Get(product, "price")), Get(product, "imageUrl"))
  }

  /** `item.id === id && item.category === category` */
  predicate SameProduct(item: Row, id: string, category: string) {
    Get(item, "id") == Str(id) && Get(item, "category") == Str(category)
  }

  /** `items.some(item => SameProduct(item, id, category))` */
  predicate Contains(items: seq<Row>, id: string, category: string) {
    exists i :: 0 <= i < |items| && SameProduct(items[i], id, category)
  }

  /** How many stored items are filed under (id, category). */
  function Matches(items: seq<Row>, id: string, category: string): (n: nat)
    ensures n <= |items|
    ensures n == 0 <==> !Contains(items, id, category)
  {
    if items == [] then 0
    else
      assert forall i :: 1 <= i < |items| ==> items[i] == items[1..][i - 1];
      (if SameProduct(items[0], id, category) then 1 else 0) + Matches(items[1..], id, category)
  }

  /** `items.filter(item => !SameProduct(item, id, category))`: every
      matching item dropped, every other item kept in order. */
  function Without(items: seq<Row>, id: string, category: string): (r: seq<Row>)
    ensures IsSubsequence(r, items)
    ensures forall i :: 0 <= i < |r| ==> !SameProduct(r[i], id, category)
    ensures |r| + Matches(items, id, category) == |items|
    ensures !Contains(items, id, category) ==> r == items
  {
    if items == [] then []
    else
      var rest := Without(items[1..], id, category);
      assert forall i :: 1 <= i < |items| ==> items[i] == items[1..][i - 1];
      if SameProduct(items[0], id, category) then rest
      else
        assert ([items[0]] + rest)[1..] == rest;
        [items[0]] + rest
  }

  /** Dropping the matches of a list that has none changes nothing;
      dropping them from a prefix of such a list leaves the prefix. */
  lemma WithoutTake(items: seq<Row>, id: string, category: string, n: nat)
    requires forall i :: 0 <= i < |items| ==> !SameProduct(items[i], id, category)
    ensures Without(Take(items, n), id, category) == Take(items, n)
  {
  }

  // ---------------------------------------------------------------------
  // Recently viewed

  /** `[entry, ...filtered].slice(0, 6)`: the list after viewing `e`. */
  function RecordedView(stored: seq<Row>, e: Entry): seq<Row> {
    Take([EntryRow(e)] + Without(stored, e.id, e.category), RecentLimit)
  }

  /** The viewed entry comes first and nowhere else; at most six entries
      remain; the others are the first of the earlier entries under other
      (id, category) pairs, in their earlier order. */
  lemma {:induction false} RecordedViewShape(stored: seq<Row>, e: Entry)
    ensures var r := RecordedView(stored, e);
      && 1 <= |r| <= RecentLimit
      && r[0] == EntryRow(e)
      && (forall i :: 1 <= i < |r| ==> !SameProduct(r[i], e.id, e.category))
      && r[1..] == Take(Without(stored, e.id, e.category), RecentLimit - 1)
      && IsSubsequence(r[1..], stored)
  {
    var rest := Without(stored, e.id, e.category);
    var r := RecordedView(stored, e);
    assert r[1..] == Take(rest, RecentLimit - 1);
    assert forall i :: 1 <= i < |r| ==> r[i] == rest[i - 1];
    PrefixOfSubsequence(rest, stored, |r| - 1);
  }

  /** Viewing the same product twice in a row is the same as viewing it once. */
  lemma RecordedViewIdempotent(stored: seq<Row>, e: Entry)
    ensures RecordedView(RecordedView(stored, e), e) == RecordedView(stored, e)
  {
    var rest := Without(stored, e.id, e.category);
    var r := RecordedView(stored, e);
    RecordedViewShape(stored, e);
    assert r == [EntryRow(e)] + Take(rest, RecentLimit - 1);
    WithoutTake(rest, e.id, e.category, RecentLimit - 1);
    assert Without(r, e.id, e.category) == Take(rest, RecentLimit - 1);
  }

  /** Viewing A, then B, then A again, from an empty list, gives [A, B]. */
  lemma ViewAgainMovesToFront(a: Entry, b: Entry)
    requires a.id != b.id || a.category != b.category
    ensures RecordedView(RecordedView(RecordedView([], a), b), a) == [EntryRow(a), EntryRow(b)]
  {
    var first := RecordedView([], a);
    assert first == [EntryRow(a)];
    var second := RecordedView(first, b);
    assert Without(first, b.id, b.category) == first;
    assert second == [EntryRow(b), EntryRow(a)];
    assert Without(second, a.id, a.category) == [EntryRow(b)] by {
      assert second[1..] == [EntryRow(a)];
      assert Without([EntryRow(a)], a.id, a.category) == [];
    }
  }

  // ---------------------------------------------------------------------
  // Favorites

  datatype Toggled = Toggled(favorites: seq<Row>, isFavorite: bool)

  /** `handleToggleFavorite`'s list update and the flag it sets. */
  function Toggle(stored: seq<Row>, e: Entry): (t: Toggled)
    ensures t.isFavorite == !Contains(stored, e.id, e.category)
    ensures Contains(stored, e.id, e.category) ==>
      t.favorites == Without(stored, e.id, e.category) && |t.favorites| < |stored|
    ensures !Contains(stored, e.id, e.category) ==>
      && 1 <= |t.favorites| <= FavoriteLimit
      && t.favorites[0] == EntryRow(e)
      && t.favorites[1..] == Take(stored, FavoriteLimit - 1)
  {
    if Contains(stored, e.id, e.category) then
      Toggled(Without(stored, e.id, e.category), false)
    else
      var r := Take([EntryRow(e)] + stored, FavoriteLimit);
      assert r[1..] == Take(stored, FavoriteLimit - 1);
      Toggled(r, true)
  }

  /** After a toggle the product is a favorite exactly when the flag says so. */
  lemma ToggleFlagMatchesList(stored: seq<Row>, e: Entry)
    ensures var t := Toggle(stored, e);
      t.isFavorite <==> Contains(t.favorites, e.id, e.category)
  {
    var t := Toggle(stored, e);
    if !t.isFavorite {
      assert forall i :: 0 <= i < |t.favorites| ==> !SameProduct(t.favorites[i], e.id, e.category);
    } else {
      assert SameProduct(t.favorites[0], e.id, e.category);
    }
  }

  /** Adding a product that was not a favorite to a list of fewer than 30
      and removing it again gives back the original list. */
  lemma ToggleTwiceRestores(stored: seq<Row>, e: Entry)
    requires !Contains(stored, e.id, e.category) && |stored| < FavoriteLimit
    ensures var once := Toggle(stored, e); var twice := Toggle(once.favorites, e);
      once.isFavorite && !twice.isFavorite && twice.favorites == stored
  {
    var once := Toggle(stored, e);
    assert once.favorites == [EntryRow(e)] + stored;
    assert SameProduct(once.favorites[0], e.id, e.category);
    assert once.favorites[1..] == stored;
  }

  /** A list within the cap stays within it. */
  lemma ToggleKeepsCap(stored: seq<Row>, e: Entry)
    requires |stored| <= FavoriteLimit
    ensures |Toggle(stored, e).favorites| <= FavoriteLimit
  {
  }

  // ---------------------------------------------------------------------
  // The page's stored state

  /** Browser storage as the page sees it: the two stored lists and the
      page's favorite flag. */
  class ViewerStorage {
    var recentlyViewed: seq<Row>
    var favoriteProducts: seq<Row>
    var isFavorite: bool

    constructor (recent: seq<Row>, favorites: seq<Row>)
      ensures recentlyViewed == recent && favoriteProducts == favorites && !isFavorite
    {
      recentlyViewed := recent;
      favoriteProducts := favorites;
      isFavorite := false;
    }

    /** The effect that records a shown product; nothing happens before the
        product has loaded. */
    method RecordView(product: Option<Row>, productId: string, category: string)
      modifies this
      ensures product.None? ==> recentlyViewed == old(recentlyViewed)
      ensures product.Some? ==>
        recentlyViewed == RecordedView(old(recentlyViewed), MakeEntry(product.value, productId, category))
      ensures favoriteProducts == old(favoriteProducts) && isFavorite == old(isFavorite)
    {
      if product.Some? {
        var entry := MakeEntry(product.value, productId, category);
        var filtered := Without(recentlyViewed, entry.id, entry.category);
        recentlyViewed := Take([EntryRow(entry)] + filtered, RecentLimit);
      }
    }

    /** The effect that reads whether the shown product is a favorite. */
    method RefreshFavorite(product: Option<Row>, productId: string, category: string)
      modifies this
      ensures product.Some? ==> isFavorite == Contains(favoriteProducts, CurrentId(product.value, productId), category)
      ensures product.None? ==> isFavorite == old(isFavorite)
      ensures recentlyViewed == old(recentlyViewed) && favoriteProducts == old(favoriteProducts)
    {
      if product.Some? {
        isFavorite := Contains(favoriteProducts, CurrentId(product.value, productId), category);
      }
    }

    /** `handleToggleFavorite` */
    method ToggleFavorite(product: Option<Row>, productId: string, category: string)
      modifies this
      ensures product.None? ==> favoriteProducts == old(favoriteProducts) && isFavorite == old(isFavorite)
      ensures product.Some? ==>
        var t := Toggle(old(favoriteProducts), MakeEntry(product.value, productId, category));
        favoriteProducts == t.favorites && isFavorite == t.isFavorite
      ensures recentlyViewed == old(recentlyViewed)
    {
      if product.Some? {
        var entry := MakeEntry(product.value, productId, category);
        var present := Contains(favoriteProducts, entry.id, entry.category);
        if present {
          favoriteProducts := Without(favoriteProducts, entry.id, entry.category);
        } else {
          favoriteProducts := Take([EntryRow(entry)] + favoriteProducts, FavoriteLimit);
        }
        isFavorite := !present;
      }
    }

    /** `recentlyViewedToShow`: the stored list without the product on show. */
    function RecentlyViewedToShow(product: Row, productId: string, category: string): (r: seq<Row>)
      reads this
      ensures IsSubsequence(r, recentlyViewed)
      ensures forall i :: 0 <= i < |r| ==> !SameProduct(r[i], CurrentId(product, productId), category)
      ensures |r| + Matches(recentlyViewed, CurrentId(product, productId), category) == |recentlyViewed|
    {
      Without(recentlyViewed, CurrentId(product, productId), category)
    }
  }

  /** Right after a view is recorded, the strip shows every other entry of
      the list, in order. */
  lemma ShownAfterView(stored: seq<Row>, e: Entry)
    ensures Without(RecordedView(stored, e), e.id, e.category) == RecordedView(stored, e)[1..]
  {
    var r := RecordedView(stored, e);
    RecordedViewShape(stored, e);
    assert r == [EntryRow(e)] + r[1..];
    WithoutTake(Without(stored, e.id, e.category), e.id, e.category, RecentLimit - 1);
  }

  // ---------------------------------------------------------------------
  // dedupeRecommendations

  /** The recommendations response body: an array, or anything else. */
  datatype Payload = JsonArray(items: seq<Row>) | NotAnArray

  /** `String(item?.id ?? item?.productId ?? \`${item?.name ?? ''}-${item?.price ?? ''}\`)` */
  function DedupeKey(item: Row): string {
    var fallback := ToText(Coalesce(Get(item, "name"), Str(""))) + "-" + ToText(Coalesce(Get(item, "price"), Str("")));
    ToText(Coalesce(Get(item, "id"), Coalesce(Get(item, "productId"), Str(fallback))))
  }

  // The deduplication is stated for any key function `key`; the page uses
  // `DedupeKey`.

  /** The keys that occur in `items`. */
  function KeySet(items: seq<Row>, key: Row -> string): (keys: set<string>)
    ensures forall i :: 0 <= i < |items| ==> key(items[i]) in keys
    ensures forall k :: k in keys ==> exists i :: 0 <= i < |items| && key(items[i]) == k
  {
    if items == [] then {}
    else
      assert forall i :: 1 <= i < |items| ==> items[i] == items[1..][i - 1];
      {key(items[0])} + KeySet(items[1..], key)
  }

  /** The position of the first item with key `k`, or `|items|`. */
  function FirstIndex(items: seq<Row>, key: Row -> string, k: string): (n: nat)
    ensures n <= |items|
    ensures forall j :: 0 <= j < n ==> key(items[j]) != k
    ensures n < |items| ==> key(items[n]) == k
  {
    if items == [] then 0
    else if key(items[0]) == k then 0
    else
      var n := FirstIndex(items[1..], key, k);
      assert forall j :: 1 <= j < n + 1 ==> items[j] == items[1..][j - 1];
      1 + n
  }

  /** The `filter` with its `seen` set, as a function of the set it starts
      from: each item whose key is not yet seen is kept and its key
      becomes seen. */
  function FirstOccurrences(items: seq<Row>, key: Row -> string, seen: set<string>): seq<Row> {
    if items == [] then []
    else
      var k := key(items[0]);
      if k in seen then FirstOccurrences(items[1..], key, seen)
      else [items[0]] + FirstOccurrences(items[1..], key, seen + {k})
  }

  /** The result is a subsequence whose keys were not seen before. */
  lemma {:induction false} FirstOccurrencesSubsequence(items: seq<Row>, key: Row -> string, seen: set<string>)
    ensures var r := FirstOccurrences(items, key, seen);
      && IsSubsequence(r, items)
      && forall j :: 0 <= j < |r| ==> key(r[j]) !in seen
  {
    if items != [] {
      var k := key(items[0]);
      if k in seen {
        FirstOccurrencesSubsequence(items[1..], key, seen);
      } else {
        FirstOccurrencesSubsequence(items[1..], key, seen + {k});
        var rest := FirstOccurrences(items[1..], key, seen + {k});
        var r := [items[0]] + rest;
        assert r[1..] == rest;
        assert forall j :: 1 <= j < |r| ==> r[j] == rest[j - 1];
      }
    }
  }

  /** No two kept items share a key. */
  lemma {:induction false} FirstOccurrencesDistinct(items: seq<Row>, key: Row -> string, seen: set<string>)
    ensures var r := FirstOccurrences(items, key, seen);
      forall j, l :: 0 <= j < l < |r| ==> key(r[j]) != key(r[l])
  {
    if items != [] {
      var k := key(items[0]);
      if k in seen {
        FirstOccurrencesDistinct(items[1..], key, seen);
        assert FirstOccurrences(items, key, seen) == FirstOccurrences(items[1..], key, seen);
      } else {
        FirstOccurrencesDistinct(items[1..], key, seen + {k});
        FirstOccurrencesSubsequence(items[1..], key, seen + {k});
        var rest := FirstOccurrences(items[1..], key, seen + {k});
        var r := [items[0]] + rest;
        assert r == FirstOccurrences(items, key, seen);
        forall j, l | 0 <= j < l < |r|
          ensures key(r[j]) != key(r[l])
        {
          assert r[l] == rest[l - 1];
          if j == 0 {
            assert key(rest[l - 1]) !in seen + {k};
          } else {
            assert r[j] == rest[j - 1];
          }
        }
      }
    }
  }

  /** Every key of the input that was not already seen is kept. */
  lemma {:induction false} FirstOccurrencesKeys(items: seq<Row>, key: Row -> string, seen: set<string>)
    ensures KeySet(FirstOccurrences(items, key, seen), key) == KeySet(items, key) - seen
  {
    if items != [] {
      var k := key(items[0]);
      assert KeySet(items, key) == {k} + KeySet(items[1..], key);
      if k in seen {
        FirstOccurrencesKeys(items[1..], key, seen);
      } else {
        FirstOccurrencesKeys(items[1..], key, seen + {k});
        var rest := FirstOccurrences(items[1..], key, seen + {k});
        assert ([items[0]] + rest)[1..] == rest;
        assert KeySet([items[0]] + rest, key) == {k} + KeySet(rest, key);
      }
    }
  }

  /** Each kept item is the first item of the input with its key. */
  lemma {:induction false} FirstOccurrencesFirst(items: seq<Row>, key: Row -> string, seen: set<string>)
    ensures var r := FirstOccurrences(items, key, seen);
      forall j :: 0 <= j < |r| ==>
        FirstIndex(items, key, key(r[j])) < |items| && r[j] == items[FirstIndex(items, key, key(r[j]))]
  {
    if items != [] {
      var k := key(items[0]);
      var seen' := if k in seen then seen else seen + {k};
      FirstOccurrencesFirst(items[1..], key, seen');
      FirstOccurrencesSubsequence(items[1..], key, seen');
      var rest := FirstOccurrences(items[1..], key, seen');
      forall j | 0 <= j < |rest|
        ensures FirstIndex(items, key, key(rest[j])) == 1 + FirstIndex(items[1..], key, key(rest[j]))
      {
        assert key(rest[j]) != k;
      }
      if k !in seen {
        var r := [items[0]] + rest;
        assert r == FirstOccurrences(items, key, seen);
        forall j | 0 < j < |r|
          ensures FirstIndex(items, key, key(r[j])) < |items| && r[j] == items[FirstIndex(items, key, key(r[j]))]
        {
          assert r[j] == rest[j - 1];
        }
      }
    }
  }

  /** `dedupeRecommendations(items)`: nothing for a body that is not an
      array, the body itself outside `jumia`, and otherwise the first item
      of each key, in order. */
  method DedupeRecommendations(payload: Payload, category: string) returns (r: seq<Row>)
    ensures payload.NotAnArray? ==> r == []
    ensures payload.JsonArray? && category != "jumia" ==> r == payload.items
    ensures payload.JsonArray? && category == "jumia" ==> r == FirstOccurrences(payload.items, DedupeKey, {})
  {
    if payload.NotAnArray? {
      return [];
    }
    var items := payload.items;
    if category != "jumia" {
      return items;
    }
    var seen: set<string> := {};
    r := [];
    var i := 0;
    while i < |items|
      invariant 0 <= i <= |items|
      invariant r + FirstOccurrences(items[i..], DedupeKey, seen) == FirstOccurrences(items, DedupeKey, {})
    {
      var key := DedupeKey(items[i]);
      assert items[i..][1..] == items[i + 1..];
      if key !in seen {
        r := r + [items[i]];
        seen := seen + {key};
      }
      i := i + 1;
    }
  }

  /** What the `jumia` deduplication promises, for any response array. */
  lemma DedupeShape(items: seq<Row>)
    ensures var r := FirstOccurrences(items, DedupeKey, {});
      && IsSubsequence(r, items)
      && (forall j, l :: 0 <= j < l < |r| ==> DedupeKey(r[j]) != DedupeKey(r[l]))
      && KeySet(r, DedupeKey) == KeySet(items, DedupeKey)
      && (forall j :: 0 <= j < |r| ==> r[j] == items[FirstIndex(items, DedupeKey, DedupeKey(r[j]))])
  {
    FirstOccurrencesSubsequence(items, DedupeKey, {});
    FirstOccurrencesDistinct(items, DedupeKey, {});
    FirstOccurrencesKeys(items, DedupeKey, {});
    FirstOccurrencesFirst(items, DedupeKey, {});
  }
}
