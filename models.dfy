/** The recipe tables and their declared constraints
    (backend/recipes/models.py), with the user tables of backend/users/models.py
    gathered into one database value. */
module Models {
  import opened Common
  import opened Users

  const MIN_AMOUNT := 1
  const MAX_AMOUNT := 32000
  const MIN_TIME_MINUTES := 1
  const MAX_TIME_MINUTE := 32000

  datatype Tag = Tag(id: nat, name: string, color: string, slug: string)

  datatype Ingredient = Ingredient(id: nat, name: string, measurementUnit: string)

  /** A recipe; `author` is a user id and `tags` the ids of its many-to-many tags. */
  datatype Recipe = Recipe(id: nat, author: nat, name: string, text: string,
                           tags: set<nat>, cookingTime: int)

  /** The join row between a recipe and an ingredient, carrying the quantity. */
  datatype RecipeIngredient = RecipeIngredient(recipe: nat, ingredient: nat, amount: int)

  datatype Favorite = Favorite(user: nat, recipe: nat)

  datatype ShoppingList = ShoppingList(user: nat, recipe: nat)

  /** Every table of the store, each in its default ordering. */
  datatype Db = Db(
    users: seq<User>,
    tags: seq<Tag>,
    ingredients: seq<Ingredient>,
    recipes: seq<Recipe>,
    recipeIngredients: seq<RecipeIngredient>,
    favorites: seq<Favorite>,
    shoppingLists: seq<ShoppingList>,
    follows: seq<Follow>)

  /** `Ingredient.__str__`: the name followed by the unit in parentheses. */
  function IngredientStr(i: Ingredient): (s: string)
    ensures |s| == |i.name| + |i.measurementUnit| + 3
    ensures s[..|i.name|] == i.name
    ensures s[|i.name|..] == " (" + i.measurementUnit + ")"
  {
    i.name + " (" + i.measurementUnit + ")"
  }

  /** The unit can be read back from the display string once the name is
      known: it lies between the name's " (" and the closing parenthesis. */
  lemma IngredientStrRecoversUnit(i: Ingredient)
    ensures IngredientStr(i)[|i.name| + 2..|IngredientStr(i)| - 1] == i.measurementUnit
  {
    var s := IngredientStr(i);
    assert s[|i.name|..][2..|s| - |i.name| - 1] == i.measurementUnit;
  }

  /** Two ingredients of the same name display alike exactly when their units
      agree, so the shopping-list lines tell such ingredients apart. */
  lemma IngredientStrSeparatesUnits(a: Ingredient, b: Ingredient)
    requires a.name == b.name
    ensures IngredientStr(a) == IngredientStr(b) <==> a.measurementUnit == b.measurementUnit
  {
    IngredientStrRecoversUnit(a);
    IngredientStrRecoversUnit(b);
  }

  /** A join row created without an explicit amount gets the default, which
      lies inside the declared bounds. */
  function NewRecipeIngredient(recipe: nat, ingredient: nat): (r: RecipeIngredient)
    ensures r.recipe == recipe && r.ingredient == ingredient
    ensures AmountInBounds(r)
  {
    RecipeIngredient(recipe, ingredient, MIN_AMOUNT)
  }

  /** A recipe created without a cooking time gets the default, inside the bounds. */
  function NewRecipe(id: nat, author: nat, name: string, text: string, tags: set<nat>): (r: Recipe)
    ensures r.id == id && r.author == author && r.name == name && r.tags == tags
    ensures CookingTimeInBounds(r)
  {
    Recipe(id, author, name, text, tags, MIN_TIME_MINUTES)
  }

  predicate AmountInBounds(ri: RecipeIngredient)
  {
    MIN_AMOUNT <= ri.amount <= MAX_AMOUNT
  }

  predicate CookingTimeInBounds(r: Recipe)
  {
    MIN_TIME_MINUTES <= r.cookingTime <= MAX_TIME_MINUTE
  }

  function UserIds(db: Db): set<nat> { set u | u in db.users :: u.id }
  function TagIds(db: Db): set<nat> { set t | t in db.tags :: t.id }
  function IngredientIds(db: Db): set<nat> { set i | i in db.ingredients :: i.id }
  function RecipeIds(db: Db): set<nat> { set r | r in db.recipes :: r.id }

  /** Primary keys, `unique=True` columns and composite unique constraints. */
  predicate KeysUnique(db: Db)
  {
    && UniqueBy(db.users, (u: User) => u.id)
    && UniqueUsernames(db.users)
    && UniqueBy(db.tags, (t: Tag) => t.id)
    && UniqueBy(db.tags, (t: Tag) => t.name)
    && UniqueBy(db.tags, (t: Tag) => t.color)
    && UniqueBy(db.tags, (t: Tag) => t.slug)
    && UniqueBy(db.ingredients, (i: Ingredient) => i.id)
    && UniqueBy(db.recipes, (r: Recipe) => r.id)
    && UniqueBy(db.recipeIngredients, (ri: RecipeIngredient) => (ri.ingredient, ri.recipe))
    && UniqueBy(db.favorites, (f: Favorite) => f)
    && UniqueBy(db.shoppingLists, (s: ShoppingList) => s)
    && UniqueFollows(db.follows)
  }

  /** Every foreign key points at an existing row. */
  predicate RefsIntact(db: Db)
  {
    && (forall r :: r in db.recipes ==> r.author in UserIds(db) && r.tags <= TagIds(db))
    && (forall ri :: ri in db.recipeIngredients ==>
          ri.recipe in RecipeIds(db) && ri.ingredient in IngredientIds(db))
    && (forall f :: f in db.favorites ==> f.user in UserIds(db) && f.recipe in RecipeIds(db))
    && (forall s :: s in db.shoppingLists ==> s.user in UserIds(db) && s.recipe in RecipeIds(db))
    && (forall f :: f in db.follows ==> f.user in UserIds(db) && f.following in UserIds(db))
  }

  /** The validators on the integer columns. */
  predicate BoundsHold(db: Db)
  {
    && (forall ri :: ri in db.recipeIngredients ==> AmountInBounds(ri))
    && (forall r :: r in db.recipes ==> CookingTimeInBounds(r))
  }

  predicate Valid(db: Db)
  {
    KeysUnique(db) && RefsIntact(db) && BoundsHold(db)
  }

  /** `favorite_counter`: the number of Favorite rows that reference the recipe. */
  function FavoriteCounter(db: Db, recipeId: nat): nat
  {
    |Filter(db.favorites, (f: Favorite) => f.recipe == recipeId)|
  }

  /** The users who marked the recipe as a favorite. */
  function FavoritedBy(db: Db, recipeId: nat): set<nat>
  {
    set f | f in db.favorites && f.recipe == recipeId :: f.user
  }

  /** Because a (user, recipe) pair is stored at most once, the counter is the
      number of distinct users who favorited the recipe. */
  lemma FavoriteCounterCountsUsers(db: Db, recipeId: nat)
    requires UniqueBy(db.favorites, (f: Favorite) => f)
    ensures FavoriteCounter(db, recipeId) == |FavoritedBy(db, recipeId)|
  {
    var p := (f: Favorite) => f.recipe == recipeId;
    var rows := Filter(db.favorites, p);
    FilterPreservesUnique(db.favorites, p, (f: Favorite) => f);
    var users := MapSeq(rows, (f: Favorite) => f.user);
    assert Distinct(users) by {
      forall i, j | 0 <= i < j < |users| ensures users[i] != users[j] {
        assert rows[i] in rows && rows[j] in rows;
        assert rows[i] != rows[j];
      }
    }
    DistinctIffSetSize(users);
    assert SetOf(users) == FavoritedBy(db, recipeId) by {
      forall u | u in FavoritedBy(db, recipeId) ensures u in SetOf(users) {
        var f :| f in db.favorites && f.recipe == recipeId && f.user == u;
        assert f in rows;
        var k :| 0 <= k < |rows| && rows[k] == f;
        assert users[k] == u;
      }
      forall u | u in SetOf(users) ensures u in FavoritedBy(db, recipeId) {
        var k :| 0 <= k < |users| && users[k] == u;
        assert rows[k] in rows;
      }
    }
  }

  /** Deleting a recipe cascades to its join rows, its Favorite rows and its
      ShoppingList rows; nothing else changes. */
  function DeleteRecipe(db: Db, recipeId: nat): (r: Db)
    ensures recipeId !in RecipeIds(r)
    ensures forall x :: x in r.recipes <==> x in db.recipes && x.id != recipeId
    ensures forall ri :: ri in r.recipeIngredients <==> ri in db.recipeIngredients && ri.recipe != recipeId
    ensures forall f :: f in r.favorites <==> f in db.favorites && f.recipe != recipeId
    ensures forall s :: s in r.shoppingLists <==> s in db.shoppingLists && s.recipe != recipeId
    ensures r.users == db.users && r.tags == db.tags && r.ingredients == db.ingredients
    ensures r.follows == db.follows
  {
    db.(recipes := Filter(db.recipes, (x: Recipe) => x.id != recipeId),
        recipeIngredients := Filter(db.recipeIngredients, (ri: RecipeIngredient) => ri.recipe != recipeId),
        favorites := Filter(db.favorites, (f: Favorite) => f.recipe != recipeId),
        shoppingLists := Filter(db.shoppingLists, (s: ShoppingList) => s.recipe != recipeId))
  }

  /** Deleting an ingredient cascades to the join rows that use it. */
  function DeleteIngredient(db: Db, ingredientId: nat): (r: Db)
    ensures ingredientId !in IngredientIds(r)
    ensures forall i :: i in r.ingredients <==> i in db.ingredients && i.id != ingredientId
    ensures forall ri :: ri in r.recipeIngredients <==> ri in db.recipeIngredients && ri.ingredient != ingredientId
    ensures r.recipes == db.recipes && r.favorites == db.favorites && r.shoppingLists == db.shoppingLists
    ensures r.users == db.users && r.tags == db.tags && r.follows == db.follows
  {
    db.(ingredients := Filter(db.ingredients, (i: Ingredient) => i.id != ingredientId),
        recipeIngredients := Filter(db.recipeIngredients, (ri: RecipeIngredient) => ri.ingredient != ingredientId))
  }

  /** The recipes authored by a user. */
  function AuthoredBy(db: Db, userId: nat): set<nat>
  {
    set r | r in db.recipes && r.author == userId :: r.id
  }

  /** Deleting a user cascades: its recipes (and, through them, their join,
      Favorite and ShoppingList rows), its own Favorite and ShoppingList rows,
      and the Follow rows on both sides. */
  function DeleteUser(db: Db, userId: nat): (r: Db)
    ensures userId !in UserIds(r)
    ensures forall u :: u in r.users <==> u in db.users && u.id != userId
    ensures forall x :: x in r.recipes <==> x in db.recipes && x.author != userId
    ensures forall f :: f in r.follows <==> f in db.follows && f.user != userId && f.following != userId
    ensures forall f :: f in r.favorites <==>
      f in db.favorites && f.user != userId && f.recipe !in AuthoredBy(db, userId)
    ensures forall s :: s in r.shoppingLists <==>
      s in db.shoppingLists && s.user != userId && s.recipe !in AuthoredBy(db, userId)
    ensures forall ri :: ri in r.recipeIngredients <==>
      ri in db.recipeIngredients && ri.recipe !in AuthoredBy(db, userId)
    ensures r.tags == db.tags && r.ingredients == db.ingredients
  {
    var gone := AuthoredBy(db, userId);
    db.(users := Filter(db.users, (u: User) => u.id != userId),
        recipes := Filter(db.recipes, (x: Recipe) => x.author != userId),
        recipeIngredients := Filter(db.recipeIngredients, (ri: RecipeIngredient) => ri.recipe !in gone),
        favorites := Filter(db.favorites, (f: Favorite) => f.user != userId && f.recipe !in gone),
        shoppingLists := Filter(db.shoppingLists, (s: ShoppingList) => s.user != userId && s.recipe !in gone),
        follows := DeleteUserFollows(db.follows, userId))
  }

  /** A recipe cascade keeps every constraint of the store. */
  lemma DeleteRecipePreservesValid(db: Db, recipeId: nat)
    requires Valid(db)
    ensures Valid(DeleteRecipe(db, recipeId))
  {
    DeleteRecipeKeepsKeys(db, recipeId);
    DeleteRecipeKeepsRefs(db, recipeId);
  }

  lemma DeleteRecipeKeepsKeys(db: Db, recipeId: nat)
    requires KeysUnique(db)
    ensures KeysUnique(DeleteRecipe(db, recipeId))
  {
    FilterPreservesUnique(db.recipes, (x: Recipe) => x.id != recipeId, (x: Recipe) => x.id);
    FilterPreservesUnique(db.recipeIngredients, (ri: RecipeIngredient) => ri.recipe != recipeId,
                          (ri: RecipeIngredient) => (ri.ingredient, ri.recipe));
    FilterPreservesUnique(db.favorites, (f: Favorite) => f.recipe != recipeId, (f: Favorite) => f);
    FilterPreservesUnique(db.shoppingLists, (s: ShoppingList) => s.recipe != recipeId, (s: ShoppingList) => s);
  }

  /** A row that survives the cascade still finds the recipe it references. */
  lemma DeleteRecipeKeepsRefs(db: Db, recipeId: nat)
    requires RefsIntact(db)
    ensures RefsIntact(DeleteRecipe(db, recipeId))
  {
    var r := DeleteRecipe(db, recipeId);
    forall id | id in RecipeIds(db) && id != recipeId ensures id in RecipeIds(r) {
      var x :| x in db.recipes && x.id == id;
      assert x in r.recipes;
    }
  }

  /** An ingredient cascade keeps every constraint of the store. */
  lemma DeleteIngredientPreservesValid(db: Db, ingredientId: nat)
    requires Valid(db)
    ensures Valid(DeleteIngredient(db, ingredientId))
  {
    DeleteIngredientKeepsKeys(db, ingredientId);
    DeleteIngredientKeepsRefs(db, ingredientId);
  }

  lemma DeleteIngredientKeepsKeys(db: Db, ingredientId: nat)
    requires KeysUnique(db)
    ensures KeysUnique(DeleteIngredient(db, ingredientId))
  {
    FilterPreservesUnique(db.ingredients, (i: Ingredient) => i.id != ingredientId, (i: Ingredient) => i.id);
    FilterPreservesUnique(db.recipeIngredients, (ri: RecipeIngredient) => ri.ingredient != ingredientId,
                          (ri: RecipeIngredient) => (ri.ingredient, ri.recipe));
  }

  /** A join row that survives the ingredient cascade still finds its ingredient. */
  lemma DeleteIngredientKeepsRefs(db: Db, ingredientId: nat)
    requires RefsIntact(db)
    ensures RefsIntact(DeleteIngredient(db, ingredientId))
  {
    var r := DeleteIngredient(db, ingredientId);
    forall id | id in IngredientIds(db) && id != ingredientId ensures id in IngredientIds(r) {
      var x :| x in db.ingredients && x.id == id;
      assert x in r.ingredients;
    }
  }

  /** A user cascade keeps every constraint of the store. */
  lemma DeleteUserPreservesValid(db: Db, userId: nat)
    requires Valid(db)
    ensures Valid(DeleteUser(db, userId))
  {
    DeleteUserKeepsKeys(db, userId);
    DeleteUserKeepsRefs(db, userId);
  }

  lemma DeleteUserKeepsKeys(db: Db, userId: nat)
    requires KeysUnique(db)
    ensures KeysUnique(DeleteUser(db, userId))
  {
    var gone := AuthoredBy(db, userId);
    FilterPreservesUnique(db.users, (u: User) => u.id != userId, (u: User) => u.id);
    FilterPreservesUnique(db.users, (u: User) => u.id != userId, (u: User) => u.username);
    FilterPreservesUnique(db.recipes, (x: Recipe) => x.author != userId, (x: Recipe) => x.id);
    FilterPreservesUnique(db.recipeIngredients, (ri: RecipeIngredient) => ri.recipe !in gone,
                          (ri: RecipeIngredient) => (ri.ingredient, ri.recipe));
    FilterPreservesUnique(db.favorites, (f: Favorite) => f.user != userId && f.recipe !in gone, (f: Favorite) => f);
    FilterPreservesUnique(db.shoppingLists, (s: ShoppingList) => s.user != userId && s.recipe !in gone,
                          (s: ShoppingList) => s);
    DeleteUserFollowsKeepsUnique(db.follows, userId);
  }

  /** Every user other than the deleted one survives the user cascade. */
  lemma DeleteUserKeepsOtherUsers(db: Db, userId: nat)
    ensures forall id :: id in UserIds(db) && id != userId ==> id in UserIds(DeleteUser(db, userId))
  {
    var r := DeleteUser(db, userId);
    forall id | id in UserIds(db) && id != userId ensures id in UserIds(r) {
      var u :| u in db.users && u.id == id;
      assert u in r.users;
    }
  }

  /** Every recipe not authored by the deleted user survives the user cascade. */
  lemma DeleteUserKeepsOtherRecipes(db: Db, userId: nat)
    ensures forall id :: id in RecipeIds(db) && id !in AuthoredBy(db, userId) ==>
              id in RecipeIds(DeleteUser(db, userId))
  {
    var r := DeleteUser(db, userId);
    forall id | id in RecipeIds(db) && id !in AuthoredBy(db, userId) ensures id in RecipeIds(r) {
      var x :| x in db.recipes && x.id == id;
      assert x.author != userId;
      assert x in r.recipes;
    }
  }

  /** A row that survives the user cascade still finds the rows it references. */
  lemma DeleteUserKeepsRefs(db: Db, userId: nat)
    requires RefsIntact(db)
    ensures RefsIntact(DeleteUser(db, userId))
  {
    var r := DeleteUser(db, userId);
    DeleteUserKeepsOtherUsers(db, userId);
    DeleteUserKeepsOtherRecipes(db, userId);
    assert forall x :: x in r.recipes ==> x.author in UserIds(r) && x.tags <= TagIds(r);
    assert forall ri :: ri in r.recipeIngredients ==>
             ri.recipe in RecipeIds(r) && ri.ingredient in IngredientIds(r);
    assert forall f :: f in r.favorites ==> f.user in UserIds(r) && f.recipe in RecipeIds(r);
    assert forall s :: s in r.shoppingLists ==> s.user in UserIds(r) && s.recipe in RecipeIds(r);
    assert forall f :: f in r.follows ==> f.user in UserIds(r) && f.following in UserIds(r);
  }
}
