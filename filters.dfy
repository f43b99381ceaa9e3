/** The query filters of backend/api/filters.py, stated over the record
    sequences of the store. */
module Filters {
  import opened Common
  import opened Models

  const FAVORITE_PARAM := "is_favorited"
  const SHOPPING_CART_PARAM := "is_in_shopping_cart"
  const SEARCH_PARAM := "name"

  /** Does the recipe carry a tag whose slug is one of `slugs`? */
  predicate HasTagSlugIn(r: Recipe, tags: seq<Tag>, slugs: seq<string>)
  {
    exists t :: t in tags && t.id in r.tags && t.slug in slugs
  }

  /** `filter_tags`: the recipes of the query set having at least one tag
      whose slug is listed, in query-set order. */
  function FilterTags(queryset: seq<Recipe>, tags: seq<Tag>, slugs: seq<string>): (r: seq<Recipe>)
    ensures forall x :: x in r <==> x in queryset && HasTagSlugIn(x, tags, slugs)
  {
    Filter(queryset, (x: Recipe) => HasTagSlugIn(x, tags, slugs))
  }

  /** The join over tags yields a recipe once per matching tag; `distinct()`
      brings it back to once: the result has no repeated primary key. */
  lemma FilterTagsDistinct(queryset: seq<Recipe>, tags: seq<Tag>, slugs: seq<string>)
    requires UniqueBy(queryset, (x: Recipe) => x.id)
    ensures UniqueBy(FilterTags(queryset, tags, slugs), (x: Recipe) => x.id)
  {
    FilterPreservesUnique(queryset, (x: Recipe) => HasTagSlugIn(x, tags, slugs), (x: Recipe) => x.id);
  }

  /** The two relation parameters understood by `get_filtered_queryset`. */
  datatype CartParam = Favorited | InShoppingCart

  /** The recipe ids the user has marked under the parameter, in row order
      (the list comprehension over the user's rows). */
  function MarkedRecipeIds(db: Db, param: CartParam, userId: nat): (ids: seq<nat>)
    ensures param == Favorited ==>
      forall id :: id in ids <==> Favorite(userId, id) in db.favorites
    ensures param == InShoppingCart ==>
      forall id :: id in ids <==> ShoppingList(userId, id) in db.shoppingLists
  {
    match param
    case Favorited =>
      var rows := Filter(db.favorites, (f: Favorite) => f.user == userId);
      var ids := MapSeq(rows, (f: Favorite) => f.recipe);
      assert forall id :: id in ids ==> Favorite(userId, id) in db.favorites by {
        forall id | id in ids ensures Favorite(userId, id) in db.favorites {
          var k :| 0 <= k < |ids| && ids[k] == id;
          assert rows[k] in rows;
        }
      }
      assert forall id :: Favorite(userId, id) in db.favorites ==> id in ids by {
        forall id | Favorite(userId, id) in db.favorites ensures id in ids {
          var k :| 0 <= k < |rows| && rows[k] == Favorite(userId, id);
          assert ids[k] == id;
        }
      }
      ids
    case InShoppingCart =>
      var rows := Filter(db.shoppingLists, (s: ShoppingList) => s.user == userId);
      var ids := MapSeq(rows, (s: ShoppingList) => s.recipe);
      assert forall id :: id in ids ==> ShoppingList(userId, id) in db.shoppingLists by {
        forall id | id in ids ensures ShoppingList(userId, id) in db.shoppingLists {
          var k :| 0 <= k < |ids| && ids[k] == id;
          assert rows[k] in rows;
        }
      }
      assert forall id :: ShoppingList(userId, id) in db.shoppingLists ==> id in ids by {
        forall id | ShoppingList(userId, id) in db.shoppingLists ensures id in ids {
          var k :| 0 <= k < |rows| && rows[k] == ShoppingList(userId, id);
          assert ids[k] == id;
        }
      }
      ids
  }

  /** `get_filtered_queryset`: all recipes whose id the user has marked as
      favorite (or put in the shopping cart), in recipe-table order. */
  function GetFilteredQueryset(db: Db, param: CartParam, userId: nat): (r: seq<Recipe>)
    ensures param == Favorited ==>
      forall x :: x in r <==> x in db.recipes && Favorite(userId, x.id) in db.favorites
    ensures param == InShoppingCart ==>
      forall x :: x in r <==> x in db.recipes && ShoppingList(userId, x.id) in db.shoppingLists
  {
    var ids := MarkedRecipeIds(db, param, userId);
    Filter(db.recipes, (x: Recipe) => x.id in ids)
  }

  /** The capitals that the model's `str.lower()` maps: Latin A-Z and the
      Russian alphabet, Ё included. */
  predicate IsCapital(c: char)
  {
    'A' <= c <= 'Z' || 'А' <= c <= 'Я' || c == 'Ё'
  }

  /** Lower-casing of one character: ASCII and Russian capitals, including Ё. */
  function LowerChar(c: char): (l: char)
    ensures !IsCapital(l)
    ensures !IsCapital(c) ==> l == c
  {
    if 'A' <= c <= 'Z' then (c as int + 32) as char
    else if 'А' <= c <= 'Я' then (c as int + 32) as char
    else if c == 'Ё' then 'ё'
    else c
  }

  /** `str.lower()` as a character-by-character mapping: no capital is left,
      and every other character stays where and what it was. */
  function Lower(s: string): (r: string)
    ensures |r| == |s|
    ensures forall i :: 0 <= i < |s| ==> r[i] == LowerChar(s[i])
    ensures forall i :: 0 <= i < |r| ==> !IsCapital(r[i])
    ensures forall i :: 0 <= i < |s| && !IsCapital(s[i]) ==> r[i] == s[i]
  {
    seq(|s|, i requires 0 <= i < |s| => LowerChar(s[i]))
  }

  /** Lower-casing twice is lower-casing once: the case-insensitive lookups
      lower-case the already lowered search term again without changing it. */
  lemma LowerIdempotent(s: string)
    ensures Lower(Lower(s)) == Lower(s)
  {
  }

  predicate IsPrefix(t: string, s: string)
  {
    |t| <= |s| && s[..|t|] == t
  }

  predicate ContainsAt(s: string, t: string, i: int)
  {
    0 <= i && i + |t| <= |s| && s[i..i + |t|] == t
  }

  predicate Contains(s: string, t: string)
  {
    exists i :: 0 <= i <= |s| && ContainsAt(s, t, i)
  }

  /** `name__istartswith` and `name__icontains`: comparisons after lower-casing
      both sides. */
  predicate IStartsWith(name: string, term: string) { IsPrefix(Lower(term), Lower(name)) }

  predicate IContains(name: string, term: string) { Contains(Lower(name), Lower(term)) }

  /** `request.query_params.get(name, '').lower()`. */
  function SearchTerm(params: map<string, string>): (term: string)
    ensures SEARCH_PARAM !in params ==> term == ""
    ensures SEARCH_PARAM in params ==> term == Lower(params[SEARCH_PARAM])
  {
    Lower(if SEARCH_PARAM in params then params[SEARCH_PARAM] else "")
  }

  /** The items whose name starts with the term. */
  function StartsWithResults(items: seq<Ingredient>, term: string): seq<Ingredient>
  {
    Filter(items, (i: Ingredient) => IStartsWith(i.name, term))
  }

  /** The items whose name contains the term without starting with it. */
  function ContainsResults(items: seq<Ingredient>, term: string): seq<Ingredient>
  {
    Filter(items, (i: Ingredient) => !IStartsWith(i.name, term) && IContains(i.name, term))
  }

  /** The two partial results never share an item. */
  lemma StartsAndContainsDisjoint(items: seq<Ingredient>, term: string)
    ensures forall x :: !(x in StartsWithResults(items, term) && x in ContainsResults(items, term))
  {
  }

  /** `CustomSearchFilter.filter_queryset`: the union of the two partial
      results. The union of two query sets is one query whose condition is the
      disjunction, so the result keeps the query set's order. */
  function SearchFilter(params: map<string, string>, items: seq<Ingredient>): (r: seq<Ingredient>)
    ensures forall x :: x in r <==>
      x in StartsWithResults(items, SearchTerm(params)) || x in ContainsResults(items, SearchTerm(params))
  {
    var term := SearchTerm(params);
    Filter(items, (i: Ingredient) =>
      IStartsWith(i.name, term) || (!IStartsWith(i.name, term) && IContains(i.name, term)))
  }

  /** The search returns exactly the items whose name contains the requested
      text case-insensitively, in their original order. */
  lemma SearchIsCaseInsensitiveContains(params: map<string, string>, items: seq<Ingredient>)
    ensures SearchFilter(params, items)
         == Filter(items, (i: Ingredient) => IContains(i.name, SearchTerm(params)))
  {
    var term := SearchTerm(params);
    forall x | x in items
      ensures (IStartsWith(x.name, term) || (!IStartsWith(x.name, term) && IContains(x.name, term)))
           == IContains(x.name, term)
    {
      if IStartsWith(x.name, term) {
        assert ContainsAt(Lower(x.name), Lower(term), 0);
      }
    }
    FilterCongruent(items,
      (i: Ingredient) => IStartsWith(i.name, term) || (!IStartsWith(i.name, term) && IContains(i.name, term)),
      (i: Ingredient) => IContains(i.name, term));
  }

  /** With no search term (the parameter missing or given empty) every item
      is returned, in order. */
  lemma MissingSearchReturnsAll(params: map<string, string>, items: seq<Ingredient>)
    requires SearchTerm(params) == ""
    ensures SearchFilter(params, items) == items
  {
    SearchIsCaseInsensitiveContains(params, items);
    forall x | x in items ensures IContains(x.name, "") {
      assert ContainsAt(Lower(x.name), Lower(""), 0);
    }
    FilterKeepsAll(items, (i: Ingredient) => IContains(i.name, ""));
  }
}
