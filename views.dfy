/** The request handlers of backend/api/views.py that hold logic of their own:
    permission and serializer selection, the recipe query set, the follow
    endpoints and the shopping-list aggregation. */
module Views {
  import opened Common
  import opened Users
  import opened Models
  import opened Serializers
  import opened Filters
  import opened Helpers

  /** The permission classes a view can install. */
  datatype PermissionClass = AllowAny | CurrentUserOrAdmin | AuthorUserOrAdmin | IsAuthenticated

  const SAFE_METHODS: set<string> := {"GET", "HEAD", "OPTIONS"}

  /** `CustomUserViewSet.get_permissions`: the `me` action is for the user
      (or an admin) only; other reads are open; other writes are for the user
      or an admin. */
  function UserViewPermissions(action: string, httpMethod: string): (p: seq<PermissionClass>)
    ensures p == [AllowAny] <==> action != "me" && httpMethod in SAFE_METHODS
    ensures p != [AllowAny] ==> p == [CurrentUserOrAdmin]
  {
    if action == "me" then [CurrentUserOrAdmin]
    else if httpMethod in SAFE_METHODS then [AllowAny]
    else [CurrentUserOrAdmin]
  }

  /** `RecipeViewSet.get_permissions`: reads are open, every other method
      goes through the author-or-staff object check. */
  function RecipeViewPermissions(httpMethod: string): (p: seq<PermissionClass>)
    ensures p == [AllowAny] <==> httpMethod in SAFE_METHODS
    ensures p != [AllowAny] ==> p == [AuthorUserOrAdmin]
  {
    if httpMethod in SAFE_METHODS then [AllowAny] else [AuthorUserOrAdmin]
  }

  datatype SerializerClass = RecipeListSerializer | RecipeCreateSerializer

  /** `get_serializer_class`: the read serializer for `list` and `retrieve`,
      the write serializer for every other action. */
  function RecipeSerializerClass(action: string): (c: SerializerClass)
    ensures c == RecipeListSerializer <==> action == "list" || action == "retrieve"
  {
    if action in {"list", "retrieve"} then RecipeListSerializer else RecipeCreateSerializer
  }

  /** What a request by the anonymous visitor fails with where the handler
      needs a user: it has no favorite, shopping-list or follow relation (the
      attribute lookup raises), and it is not a user a query can filter by
      (the lookup value is rejected). */
  datatype RequestError = AnonymousHasNoRelations | AnonymousIsNotAUser

  /** `RecipeViewSet.get_queryset`. A query parameter counts as given whatever
      its value; `is_favorited` wins over `is_in_shopping_cart`; without
      either, every recipe is listed. */
  function GetQueryset(db: Db, params: map<string, string>, requester: Requester)
    : (r: Result<seq<Recipe>, RequestError>)
    ensures FAVORITE_PARAM in params && requester.SignedIn? ==>
      r.Ok? && forall x :: x in r.value <==>
        x in db.recipes && Favorite(requester.account.id, x.id) in db.favorites
    ensures FAVORITE_PARAM !in params && SHOPPING_CART_PARAM in params && requester.SignedIn? ==>
      r.Ok? && forall x :: x in r.value <==>
        x in db.recipes && ShoppingList(requester.account.id, x.id) in db.shoppingLists
    ensures (FAVORITE_PARAM in params || SHOPPING_CART_PARAM in params) && requester.Anonymous? ==>
      r == Err(AnonymousHasNoRelations)
    ensures FAVORITE_PARAM !in params && SHOPPING_CART_PARAM !in params ==> r == Ok(db.recipes)
  {
    if FAVORITE_PARAM in params then
      if requester.Anonymous? then Err(AnonymousHasNoRelations)
      else Ok(GetFilteredQueryset(db, Favorited, requester.account.id))
    else if SHOPPING_CART_PARAM in params then
      if requester.Anonymous? then Err(AnonymousHasNoRelations)
      else Ok(GetFilteredQueryset(db, InShoppingCart, requester.account.id))
    else Ok(db.recipes)
  }

  /** `subscriptions`: the users the requester follows, in user-table order.
      The anonymous visitor has no follow relation to read. */
  function Subscriptions(db: Db, requester: Requester): (r: Result<seq<User>, RequestError>)
    ensures requester.Anonymous? ==> r == Err(AnonymousHasNoRelations)
    ensures requester.SignedIn? ==>
      r.Ok? && forall u :: u in r.value <==> u in db.users && Follow(requester.account.id, u.id) in db.follows
  {
    if requester.Anonymous? then Err(AnonymousHasNoRelations)
    else
      var userId := requester.account.id;
      var rows := Filter(db.follows, (f: Follow) => f.user == userId);
      var ids := MapSeq(rows, (f: Follow) => f.following);
      assert forall id :: id in ids <==> Follow(userId, id) in db.follows by {
        forall id | id in ids ensures Follow(userId, id) in db.follows {
          var k :| 0 <= k < |ids| && ids[k] == id;
          assert rows[k] in rows;
        }
        forall id | Follow(userId, id) in db.follows ensures id in ids {
          var k :| 0 <= k < |rows| && rows[k] == Follow(userId, id);
          assert ids[k] == id;
        }
      }
      Ok(Filter(db.users, (u: User) => u.id in ids))
  }

  /** The follow table without the given pair (`subscription.delete()`). */
  function Without(follows: seq<Follow>, pair: Follow): (r: seq<Follow>)
    ensures pair !in r
    ensures forall f :: f != pair ==> (f in r <==> f in follows)
  {
    Filter(follows, (f: Follow) => f != pair)
  }

  /** Creating an absent pair and then deleting it gives back the original table. */
  lemma FollowToggleRoundTrip(follows: seq<Follow>, pair: Follow)
    requires pair !in follows
    ensures Without(follows + [pair], pair) == follows
  {
    FilterAppend(follows, pair, (f: Follow) => f != pair);
    FilterKeepsAll(follows, (f: Follow) => f != pair);
  }

  /** Deleting a pair keeps the table free of duplicates. */
  lemma WithoutKeepsUnique(follows: seq<Follow>, pair: Follow)
    requires UniqueFollows(follows)
    ensures UniqueFollows(Without(follows, pair))
  {
    FilterPreservesUnique(follows, (f: Follow) => f != pair, (f: Follow) => f);
  }

  /** Appending an absent pair keeps the table free of duplicates. */
  lemma AppendAbsentKeepsUnique(follows: seq<Follow>, pair: Follow)
    requires UniqueFollows(follows) && pair !in follows
    ensures UniqueFollows(follows + [pair])
  {
    var s := follows + [pair];
    forall i, j | 0 <= i < j < |s| ensures s[i] != s[j] {
      if j == |follows| {
        assert s[i] == follows[i];
      } else {
        assert s[i] == follows[i] && s[j] == follows[j];
      }
    }
  }

  /** The data `subscribe` hands to the follow serializer, as written: the
      author's primary key is submitted to a field that looks users up by
      username. */
  function SubscribePayloadAsWritten(requester: User, author: User): (d: FollowData)
    ensures d.following == NatToDecimal(author.id)
    ensures forall i :: 0 <= i < |d.following| ==> '0' <= d.following[i] <= '9'
    ensures DecimalValue(d.following) == author.id
  {
    DecimalRoundTrip(author.id);
    FollowData(requester.id, NatToDecimal(author.id))
  }

  /** The data `subscribe` evidently means to submit: the author's username. */
  function SubscribePayload(requester: User, author: User): (d: FollowData)
    ensures d.following == author.username
  {
    FollowData(requester.id, author.username)
  }

  /** As written, subscribing to an existing user fails unless some user's
      username is the author's id; and when one is, the wrong user is followed. */
  lemma AsWrittenSubscribeMissesAuthor()
    ensures ValidateFollow([User(1, "alice", false), User(2, "bob", false)], [],
                           User(1, "alice", false),
                           SubscribePayloadAsWritten(User(1, "alice", false), User(2, "bob", false)))
         == Err(UnknownFollowing("2"))
    ensures ValidateFollow([User(1, "alice", false), User(2, "bob", false), User(3, "2", false)], [],
                           User(1, "alice", false),
                           SubscribePayloadAsWritten(User(1, "alice", false), User(2, "bob", false)))
         == Ok(Follow(1, 3))
  {
    assert NatToDecimal(2) == "2";
  }

  /** With the username submitted, the serializer resolves exactly the author:
      the follow is created unless it exists already or is a self-follow. */
  lemma SubscribePayloadTargetsAuthor(users: seq<User>, follows: seq<Follow>, requester: User, author: User)
    requires UniqueUsernames(users) && author in users
    ensures ValidateFollow(users, follows, requester, SubscribePayload(requester, author))
         == if Follow(requester.id, author.id) in follows then Err(AlreadySubscribed)
            else if requester.id == author.id then Err(SelfSubscription)
            else Ok(Follow(requester.id, author.id))
  {
    FindByOwnUsername(users, author);
  }

  datatype Verb = Post | Delete

  const HTTP_201_CREATED := 201
  const HTTP_204_NO_CONTENT := 204
  const HTTP_404_NOT_FOUND := 404

  /** The user with the given primary key, if any (`get_object_or_404(User, id=id)`). */
  function FindUser(users: seq<User>, id: nat): (r: Option<User>)
    ensures r.Some? ==> r.value in users && r.value.id == id
    ensures r.None? <==> forall u :: u in users ==> u.id != id
  {
    if users == [] then None
    else if users[0].id == id then Some(users[0])
    else FindUser(users[1..], id)
  }

  /** The persisted store, updated in place by the follow endpoints. */
  class Store {
    var db: Db

    constructor (initial: Db)
      ensures db == initial
    {
      db := initial;
    }

    /** `subscribe`: an unknown author is 404 before anything else. POST
        validates the follow and creates it (201) or answers 400 with the
        serializer's error, creating nothing. DELETE removes the existing pair
        (204) or answers 404. No other table changes. The save is taken to
        store the requester as the follower. */
    method Subscribe(requester: User, authorId: nat, verb: Verb) returns (status: int, err: Option<FollowError>)
      modifies this
      ensures FindUser(old(db).users, authorId).None? ==> status == HTTP_404_NOT_FOUND && db == old(db)
      ensures FindUser(old(db).users, authorId).Some? && verb == Post ==>
        var v := ValidateFollow(old(db).users, old(db).follows, requester,
                                SubscribePayload(requester, FindUser(old(db).users, authorId).value));
        && (v.Ok? ==> status == HTTP_201_CREATED && err.None?
                      && db == old(db).(follows := old(db).follows + [v.value]))
        && (v.Err? ==> status == HTTP_400_BAD_REQUEST && err == Some(v.error) && db == old(db))
      ensures FindUser(old(db).users, authorId).Some? && verb == Delete ==>
        var pair := Follow(requester.id, authorId);
        && (pair in old(db).follows ==> status == HTTP_204_NO_CONTENT
                                        && db == old(db).(follows := Without(old(db).follows, pair)))
        && (pair !in old(db).follows ==> status == HTTP_404_NOT_FOUND && db == old(db))
      ensures UniqueFollows(old(db).follows) ==> UniqueFollows(db.follows)
    {
      err := None;
      var author := FindUser(db.users, authorId);
      if author.None? {
        return HTTP_404_NOT_FOUND, None;
      }
      if verb == Post {
        var v := ValidateFollow(db.users, db.follows, requester, SubscribePayload(requester, author.value));
        if v.Ok? {
          if UniqueFollows(db.follows) {
            AppendAbsentKeepsUnique(db.follows, v.value);
          }
          db := db.(follows := db.follows + [v.value]);
          status := HTTP_201_CREATED;
        } else {
          status, err := HTTP_400_BAD_REQUEST, Some(v.error);
        }
      } else {
        var pair := Follow(requester.id, author.value.id);
        if pair in db.follows {
          if UniqueFollows(db.follows) {
            WithoutKeepsUnique(db.follows, pair);
          }
          db := db.(follows := Without(db.follows, pair));
          status := HTTP_204_NO_CONTENT;
        } else {
          status := HTTP_404_NOT_FOUND;
        }
      }
    }
  }

  // ---------------------------------------------------------------------
  // download_shopping_cart

  /** The user's shopping-list rows, in table order. */
  function CartRows(db: Db, userId: nat): seq<ShoppingList>
  {
    Filter(db.shoppingLists, (s: ShoppingList) => s.user == userId)
  }

  /** A recipe's ingredient rows (`recipe.rel_RecipeIngredient.all()`). */
  function RecipeRows(db: Db, recipeId: nat): seq<RecipeIngredient>
  {
    Filter(db.recipeIngredients, (ri: RecipeIngredient) => ri.recipe == recipeId)
  }

  function RecipeOf(db: Db, id: nat): (r: Recipe)
    requires id in RecipeIds(db)
    ensures r in db.recipes && r.id == id
  {
    FindFirst(db.recipes, (x: Recipe) => x.id == id)
  }

  function IngredientOf(db: Db, id: nat): (i: Ingredient)
    requires id in IngredientIds(db)
    ensures i in db.ingredients && i.id == id
  {
    FindFirst(db.ingredients, (x: Ingredient) => x.id == id)
  }

  /** One ingredient row with its ingredient resolved. */
  datatype Position = Position(ingredient: Ingredient, amount: int)

  predicate CartRefsIntact(db: Db)
  {
    && (forall ri :: ri in db.recipeIngredients ==> ri.ingredient in IngredientIds(db))
    && (forall s :: s in db.shoppingLists ==> s.recipe in RecipeIds(db))
  }

  /** The positions of one recipe, in row order. */
  function RecipePositions(db: Db, recipeId: nat): (ps: seq<Position>)
    requires CartRefsIntact(db)
    ensures |ps| == |RecipeRows(db, recipeId)|
  {
    var rows := RecipeRows(db, recipeId);
    seq(|rows|, i requires 0 <= i < |rows| =>
      Position(IngredientOf(db, rows[i].ingredient), rows[i].amount))
  }

  /** The positions of a list of cart rows, one recipe after the other. */
  function CartPositions(db: Db, rows: seq<ShoppingList>): seq<Position>
    requires CartRefsIntact(db)
  {
    if rows == [] then []
    else CartPositions(db, rows[..|rows| - 1]) + RecipePositions(db, rows[|rows| - 1].recipe)
  }

  function IngredientsOf(ps: seq<Position>): seq<Ingredient>
  {
    MapSeq(ps, (p: Position) => p.ingredient)
  }

  /** The summed amount of one ingredient over a list of positions. */
  function SumFor(ps: seq<Position>, k: Ingredient): int
  {
    if ps == [] then 0
    else SumFor(ps[..|ps| - 1], k) + (if ps[|ps| - 1].ingredient == k then ps[|ps| - 1].amount else 0)
  }

  /** The `"# <name>"` header of each cart row. */
  function RecipeHeaders(db: Db, rows: seq<ShoppingList>): seq<string>
    requires CartRefsIntact(db)
    requires forall s :: s in rows ==> s.recipe in RecipeIds(db)
  {
    seq(|rows|, i requires 0 <= i < |rows| => "# " + RecipeOf(db, rows[i].recipe).name)
  }

  lemma IngredientsOfSnoc(ps: seq<Position>, p: Position)
    ensures IngredientsOf(ps + [p]) == IngredientsOf(ps) + [p.ingredient]
  {
  }

  lemma SumForSnoc(ps: seq<Position>, p: Position, k: Ingredient)
    ensures SumFor(ps + [p], k) == SumFor(ps, k) + (if p.ingredient == k then p.amount else 0)
  {
    assert (ps + [p])[..|ps|] == ps;
  }

  lemma FirstOccurrencesSnoc(s: seq<Ingredient>, x: Ingredient)
    ensures FirstOccurrences(s + [x]) == if x in s then FirstOccurrences(s) else FirstOccurrences(s) + [x]
  {
    assert (s + [x])[..|s|] == s;
  }

  /** An ingredient that occurs in no position sums to zero. */
  lemma {:induction false} SumForAbsent(ps: seq<Position>, k: Ingredient)
    requires k !in IngredientsOf(ps)
    ensures SumFor(ps, k) == 0
  {
    if ps != [] {
      var init := ps[..|ps| - 1];
      var last := ps[|ps| - 1];
      assert ps == init + [last];
      IngredientsOfSnoc(init, last);
      SumForSnoc(init, last, k);
      SumForAbsent(init, k);
    }
  }

  /** The dict mirrors the positions seen so far: its keys in first-occurrence
      order, and for each key the summed amount. */
  predicate Mirrors(t: Totals, done: seq<Position>)
  {
    && WellFormed(t)
    && t.keys == FirstOccurrences(IngredientsOf(done))
    && forall k :: k in t.amounts ==> t.amounts[k] == SumFor(done, k)
  }

  /** Adding one more position to the dict keeps it mirroring the positions. */
  lemma TotalsStep(t: Totals, done: seq<Position>, p: Position)
    requires Mirrors(t, done)
    ensures Mirrors(AddAmount(t, p.ingredient, p.amount), done + [p])
  {
    var r := AddAmount(t, p.ingredient, p.amount);
    IngredientsOfSnoc(done, p);
    FirstOccurrencesSnoc(IngredientsOf(done), p.ingredient);
    FirstOccurrencesSpec(IngredientsOf(done));
    assert p.ingredient in t.keys <==> p.ingredient in IngredientsOf(done);
    forall k | k in r.amounts ensures r.amounts[k] == SumFor(done + [p], k) {
      SumForSnoc(done, p, k);
      if k == p.ingredient && k !in t.amounts {
        SumForAbsent(done, k);
      }
    }
  }

  /** The dict built by adding the positions one after the other, starting
      from `{}`. */
  function Accumulate(ps: seq<Position>): (t: Totals)
    ensures WellFormed(t)
  {
    if ps == [] then EmptyTotals()
    else
      var last := ps[|ps| - 1];
      AddAmount(Accumulate(ps[..|ps| - 1]), last.ingredient, last.amount)
  }

  lemma AccumulateSnoc(ps: seq<Position>, p: Position)
    ensures Accumulate(ps + [p]) == AddAmount(Accumulate(ps), p.ingredient, p.amount)
  {
    assert (ps + [p])[..|ps|] == ps;
  }

  /** The accumulated dict lists each ingredient of the positions once, in
      first-occurrence order, with its summed amount. */
  lemma {:induction false} AccumulateMirrors(ps: seq<Position>)
    ensures Mirrors(Accumulate(ps), ps)
  {
    if ps != [] {
      var init := ps[..|ps| - 1];
      AccumulateMirrors(init);
      TotalsStep(Accumulate(init), init, ps[|ps| - 1]);
      assert init + [ps[|ps| - 1]] == ps;
    }
  }

  /** The dict `download_shopping_cart` builds for a user. */
  function ShoppingTotals(db: Db, userId: nat): (t: Totals)
    requires CartRefsIntact(db)
    ensures WellFormed(t)
  {
    Accumulate(CartPositions(db, CartRows(db, userId)))
  }

  /** For each ingredient, the total is the sum of its amounts over the
      ingredient rows of every recipe on the user's shopping list; the keys are
      these ingredients, each once, in the order they are first met. */
  lemma ShoppingTotalsSum(db: Db, userId: nat)
    requires CartRefsIntact(db)
    ensures ShoppingTotals(db, userId).keys == FirstOccurrences(IngredientsOf(CartPositions(db, CartRows(db, userId))))
    ensures forall k :: k in ShoppingTotals(db, userId).amounts ==>
              ShoppingTotals(db, userId).amounts[k] == SumFor(CartPositions(db, CartRows(db, userId)), k)
  {
    AccumulateMirrors(CartPositions(db, CartRows(db, userId)));
  }

  lemma CartPositionsSnoc(db: Db, rows: seq<ShoppingList>, s: ShoppingList)
    requires CartRefsIntact(db)
    ensures CartPositions(db, rows + [s]) == CartPositions(db, rows) + RecipePositions(db, s.recipe)
  {
    assert (rows + [s])[..|rows|] == rows;
  }

  lemma RecipePositionAt(db: Db, recipeId: nat, j: nat)
    requires CartRefsIntact(db)
    requires j < |RecipeRows(db, recipeId)|
    ensures RecipePositions(db, recipeId)[j]
         == Position(IngredientOf(db, RecipeRows(db, recipeId)[j].ingredient), RecipeRows(db, recipeId)[j].amount)
  {
  }

  lemma ExtendPrefix(before: seq<Position>, m: seq<Position>, j: nat)
    requires j < |m|
    ensures before + m[..j] + [m[j]] == before + m[..j + 1]
  {
    assert m[..j + 1] == m[..j] + [m[j]];
  }

  lemma RecipeHeadersSnoc(db: Db, rows: seq<ShoppingList>, s: ShoppingList)
    requires CartRefsIntact(db)
    requires forall x :: x in rows + [s] ==> x.recipe in RecipeIds(db)
    ensures RecipeHeaders(db, rows + [s]) == RecipeHeaders(db, rows) + ["# " + RecipeOf(db, s.recipe).name]
  {
  }

  /** The collecting part of `download_shopping_cart`: walks the user's cart
      rows and each recipe's ingredient rows, summing the amount per
      ingredient into a dict and collecting one `"# <name>"` entry per cart
      row. An empty cart gives two empty results. */
  method CollectShoppingCart(db: Db, userId: nat) returns (recipeList: seq<string>, finalList: Totals)
    requires CartRefsIntact(db)
    ensures recipeList == RecipeHeaders(db, CartRows(db, userId))
    ensures finalList == ShoppingTotals(db, userId)
    ensures WellFormed(finalList)
    ensures finalList.keys == FirstOccurrences(IngredientsOf(CartPositions(db, CartRows(db, userId))))
    ensures forall k :: k in finalList.amounts ==>
              finalList.amounts[k] == SumFor(CartPositions(db, CartRows(db, userId)), k)
    ensures CartRows(db, userId) == [] ==> recipeList == [] && finalList.keys == []
  {
    var shoppingList := CartRows(db, userId);
    assert forall x :: x in shoppingList ==> x.recipe in RecipeIds(db);
    finalList := EmptyTotals();
    recipeList := [];
    var i := 0;
    while i < |shoppingList|
      invariant 0 <= i <= |shoppingList|
      invariant recipeList == RecipeHeaders(db, shoppingList[..i])
      invariant finalList == Accumulate(CartPositions(db, shoppingList[..i]))
    {
      var item := shoppingList[i];
      var ingredientList := RecipeRows(db, item.recipe);
      ghost var before := CartPositions(db, shoppingList[..i]);
      ghost var mine := RecipePositions(db, item.recipe);
      ghost var done := before;
      var j := 0;
      assert before + mine[..0] == before;
      while j < |ingredientList|
        invariant 0 <= j <= |ingredientList|
        invariant done == before + mine[..j]
        invariant finalList == Accumulate(done)
      {
        var position := ingredientList[j];
        var p := Position(IngredientOf(db, position.ingredient), position.amount);
        RecipePositionAt(db, item.recipe, j);
        assert p == mine[j];
        ExtendPrefix(before, mine, j);
        assert done + [p] == before + mine[..j + 1];
        AccumulateSnoc(done, p);
        finalList := AddAmount(finalList, p.ingredient, p.amount);
        done := done + [p];
        j := j + 1;
      }
      assert mine[..j] == mine;
      assert done == before + mine;
      TakeSnoc(shoppingList, i);
      CartPositionsSnoc(db, shoppingList[..i], item);
      assert CartPositions(db, shoppingList[..i + 1]) == done;
      RecipeHeadersSnoc(db, shoppingList[..i], item);
      recipeList := recipeList + ["# " + RecipeOf(db, item.recipe).name];
      i := i + 1;
    }
    assert shoppingList[..i] == shoppingList;
    ShoppingTotalsSum(db, userId);
  }

  /** `download_shopping_cart`: the collected list and dict go to file
      creation in the configured format, also when the cart is empty. The
      anonymous visitor is not a user the cart rows can be filtered by. */
  method DownloadShoppingCart(db: Db, requester: Requester, attachmentFormat: string)
    returns (resp: Result<Response, RequestError>)
    requires CartRefsIntact(db)
    ensures requester.Anonymous? ==> resp == Err(AnonymousIsNotAUser)
    ensures requester.SignedIn? && attachmentFormat == "csv" ==>
      var userId := requester.account.id;
      resp == Ok(CsvAttachment(CSV_FILENAME, CsvLayout(RecipeHeaders(db, CartRows(db, userId)),
                                                       ShoppingTotals(db, userId))))
    ensures requester.SignedIn? && attachmentFormat == "pdf" ==>
      var userId := requester.account.id;
      resp == Ok(PdfAttachment(PDF_FILENAME, PdfLayout(RecipeHeaders(db, CartRows(db, userId)),
                                                       ShoppingTotals(db, userId))))
    ensures requester.SignedIn? && attachmentFormat != "csv" && attachmentFormat != "pdf" ==>
      resp == Ok(ErrorResponse(HTTP_400_BAD_REQUEST, FORMAT_ERROR))
  {
    if requester.Anonymous? {
      return Err(AnonymousIsNotAUser);
    }
    var recipeList, finalList := CollectShoppingCart(db, requester.account.id);
    var file := CreateFile(attachmentFormat, recipeList, finalList);
    resp := Ok(file);
  }

  /** The position comes from an ingredient row of the recipe. */
  predicate FromRecipe(db: Db, recipeId: nat, p: Position)
    requires CartRefsIntact(db)
  {
    exists ri :: ri in db.recipeIngredients && ri.recipe == recipeId
              && p == Position(IngredientOf(db, ri.ingredient), ri.amount)
  }

  /** A recipe's positions are exactly its ingredient rows, resolved. */
  lemma RecipePositionsFromRows(db: Db, recipeId: nat, p: Position)
    requires CartRefsIntact(db)
    ensures p in RecipePositions(db, recipeId) <==> FromRecipe(db, recipeId, p)
  {
    var mine := RecipePositions(db, recipeId);
    var rr := RecipeRows(db, recipeId);
    if p in mine {
      var k :| 0 <= k < |mine| && mine[k] == p;
      assert rr[k] in rr;
    }
    if FromRecipe(db, recipeId, p) {
      var ri :| ri in db.recipeIngredients && ri.recipe == recipeId
              && p == Position(IngredientOf(db, ri.ingredient), ri.amount);
      assert ri in rr;
      var k :| 0 <= k < |rr| && rr[k] == ri;
      assert mine[k] == p;
    }
  }

  /** A position of the cart comes from an ingredient row of a recipe on one
      of the cart's rows, and every such row gives a position. */
  lemma {:induction false} CartPositionsFromRows(db: Db, rows: seq<ShoppingList>, p: Position)
    requires CartRefsIntact(db)
    ensures p in CartPositions(db, rows) <==> exists s :: s in rows && FromRecipe(db, s.recipe, p)
  {
    if rows != [] {
      var init := rows[..|rows| - 1];
      var last := rows[|rows| - 1];
      assert rows == init + [last];
      CartPositionsSnoc(db, init, last);
      CartPositionsFromRows(db, init, p);
      RecipePositionsFromRows(db, last.recipe, p);
      if exists s :: s in rows && FromRecipe(db, s.recipe, p) {
        var s :| s in rows && FromRecipe(db, s.recipe, p);
        assert s in init || s == last;
      }
    }
  }

  /** The keys of the aggregated dict are exactly the ingredients used by some
      recipe on the user's shopping list, each once. */
  lemma ShoppingKeysAreCartIngredients(db: Db, userId: nat, k: Ingredient)
    requires CartRefsIntact(db)
    ensures Distinct(FirstOccurrences(IngredientsOf(CartPositions(db, CartRows(db, userId)))))
    ensures k in FirstOccurrences(IngredientsOf(CartPositions(db, CartRows(db, userId)))) <==>
      exists s, ri :: s in db.shoppingLists && s.user == userId && ri in db.recipeIngredients
                   && ri.recipe == s.recipe && IngredientOf(db, ri.ingredient) == k
  {
    var rows := CartRows(db, userId);
    var ps := CartPositions(db, rows);
    FirstOccurrencesSpec(IngredientsOf(ps));
    if k in IngredientsOf(ps) {
      var m :| 0 <= m < |ps| && IngredientsOf(ps)[m] == k;
      CartPositionsFromRows(db, rows, ps[m]);
      var s :| s in rows && FromRecipe(db, s.recipe, ps[m]);
      var ri :| ri in db.recipeIngredients && ri.recipe == s.recipe
              && ps[m] == Position(IngredientOf(db, ri.ingredient), ri.amount);
      assert s in db.shoppingLists && s.user == userId;
    }
    if exists s, ri :: s in db.shoppingLists && s.user == userId && ri in db.recipeIngredients
                     && ri.recipe == s.recipe && IngredientOf(db, ri.ingredient) == k {
      var s, ri :| s in db.shoppingLists && s.user == userId && ri in db.recipeIngredients
                 && ri.recipe == s.recipe && IngredientOf(db, ri.ingredient) == k;
      var p := Position(k, ri.amount);
      assert s in rows;
      assert FromRecipe(db, s.recipe, p);
      CartPositionsFromRows(db, rows, p);
      var m :| 0 <= m < |ps| && ps[m] == p;
      assert IngredientsOf(ps)[m] == k;
    }
  }
}
