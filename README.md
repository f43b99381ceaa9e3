# foodgram backend core in Dafny

This project models the logic of the foodgram recipe-sharing backend (a Django
REST service). It covers these parts:

- the custom recipe-input validator, whose error message is kept in an instance field and never reset;
- the shopping-list aggregation behind `download_shopping_cart`, and its CSV and PDF export;
- the follow toggle (`subscribe`), the follow serializer and the `subscriptions` listing;
- the recipe query-set selection, the tag, favorite and shopping-cart filters, and the ingredient search;
- the data-model constraints (bounds, uniqueness, cascades), and the author-or-staff permission and guard checks.

The database is one value, `Models.Db`, whose tables are sequences of records in
their default ordering. Its declared constraints are the predicates
`KeysUnique`, `RefsIntact` and `BoundsHold`.

The source code changes state in two places, and both are classes here:

- `Validators.RecipeCreateValidation` holds the sticky `errorMessage` field.
- `Views.Store` holds the database that `subscribe` updates.

Each loop in the source is a method with loop invariants, proved against a specification function:

- the validator's scan with `break`;
- the CSV and PDF writers;
- the nested loop of the shopping-list aggregation.

A Python dict is modelled as `Helpers.Totals`: the keys in insertion order plus a key-to-value map.

Modules follow the source files:

| module | file |
|---|---|
| `Users` | backend/users/models.py |
| `Models` | backend/recipes/models.py |
| `Validators` | backend/api/validators.py |
| `Helpers` | backend/api/helpers.py |
| `Filters` | backend/api/filters.py |
| `Serializers` | backend/api/serializers.py |
| `Permissions` | backend/api/permissions.py |
| `Mixins` | backend/api/mixins.py |
| `Views` | backend/api/views.py |

`Common` holds the sequence, set and decimal-text helpers shared by these modules.

Environment inputs are parameters:

- the requesting user;
- the query parameters;
- the HTTP method;
- the configured attachment format (`ATTACHMENT_FORMAT` from the settings, which are not part of this model).

## Model

| member | source | states |
|---|---|---|
| Validators.RecipeCreateValidation.RunCustomValidation | backend/api/validators.py:7-37 | The new message is the first-error outcome computed from the held message and the input, and the call returns the held message. |
| Validators.FirstBadAmount | backend/api/validators.py:13-18 | The scan stops at the first entry whose amount is below 1; every entry before it has amount at least 1. |
| Validators.FirstBadAmountAt | backend/api/validators.py:13-18 | The scan stops exactly at an entry below 1 that is preceded only by entries of at least 1. |
| Validators.Text | backend/api/validators.py:10-34 | Every message text is non-empty, so a recorded message is truthy. |
| Validators.EmptyIngredientsReported | backend/api/validators.py:9-27 | An empty ingredient list gives "Ингредиенты не переданы", whatever the tags and the held message. |
| Validators.FirstBadAmountReported | backend/api/validators.py:13-18 | The first entry with amount below 1 is reported by its id, unless the earlier entries repeat an id. |
| Validators.RepeatedIngredientReported | backend/api/validators.py:20-24 | A repeated id before the first bad amount gives "Ингредиенты повторяются", overriding the amount message. |
| Validators.RepeatAfterBadAmountIgnored | backend/api/validators.py:13-24 | The entries after the first bad amount are never examined: replacing them by any list, repeated ids included, leaves the outcome unchanged for every held message. |
| Validators.IngredientErrorsTakePrecedence | backend/api/validators.py:26-29 | Once the ingredient part holds a message, that message is returned and the tags do not affect the result. |
| Validators.TagErrorsReported | backend/api/validators.py:29-34 | On a fresh instance with clean ingredients, an empty tag list gives "Теги не переданы" and a repeated tag id gives "Теги повторяются". |
| Validators.FreshInstanceAcceptsExactlyValidInput | backend/api/validators.py:9-37 | On a fresh instance the result is None if and only if the input is acceptable: non-empty lists, amounts at least 1, no repeated ids. |
| Validators.NoUpperBoundChecked | backend/api/validators.py:14 | An amount of 1000000, far above the column maximum of 32000, passes the check. |
| Validators.StickyErrorMessage | backend/api/validators.py:5-37 | An instance that holds a message returns a message from every later call; for acceptable input it returns the old message. |
| Views.UserViewPermissions | backend/api/views.py:38-44 | The classes installed before the djoser call: open access exactly for a non-`me` action with a safe method; otherwise current-user-or-admin. |
| Views.RecipeViewPermissions | backend/api/views.py:143-150 | Open access exactly for safe methods; otherwise the author-or-staff object check. |
| Views.RecipeSerializerClass | backend/api/views.py:169-174 | The read serializer exactly for `list` and `retrieve`. |
| Views.GetQueryset | backend/api/views.py:152-167 | `is_favorited` wins over `is_in_shopping_cart`; each returns exactly the requester's marked recipes; with neither, all recipes; an anonymous requester with a parameter gets an error. |
| Views.Subscriptions | backend/api/views.py:55-62 | For a signed-in requester, a user is listed if and only if the requester has a Follow row targeting that user. The anonymous visitor, whom the open read permission lets in, gets the no-relation error. |
| Views.FindUser | backend/api/views.py:85 | The author lookup finds a user with that id, and finds none exactly when no such user exists. |
| Views.Store.Subscribe | backend/api/views.py:82-110 | Unknown author gives 404. POST gives 201 and appends the validated pair (taking the save to store the requester as follower), or 400 with the serializer error and no change. DELETE gives 204 and removes the pair, or 404. Follow-pair uniqueness is preserved. |
| Views.Without | backend/api/views.py:104-109 | Deletion removes the pair and keeps every other row. |
| Views.FollowToggleRoundTrip | backend/api/views.py:87-110 | Creating an absent follow and then deleting it restores the follow table exactly. |
| Views.WithoutKeepsUnique | backend/api/views.py:104-109 | Deleting a follow keeps the pairs unique. |
| Views.AppendAbsentKeepsUnique | backend/api/views.py:92-93 | Saving a follow that the validator found absent keeps the pairs unique. |
| Views.SubscribePayloadAsWritten | backend/api/views.py:88-91 | As written, the submitted `following` value is a digit string that reads back as the author's primary key; it is the username only if the author's username is that digit string. |
| Views.AsWrittenSubscribeMissesAuthor | backend/api/views.py:88-91 | As written, following an existing user "bob" with id 2 fails as an unknown username "2"; when a user named "2" exists, validation resolves that user instead. |
| Views.SubscribePayloadTargetsAuthor | backend/api/views.py:88-102 | With the username submitted, validation resolves exactly the author: duplicate, then self-follow, otherwise the pair (requester, author). |
| Views.Accumulate | backend/api/views.py:232-236 | Folding the dict updates over the positions yields a well-formed dict. |
| Views.AccumulateMirrors | backend/api/views.py:226-236 | The folded dict's keys are the positions' ingredients in first-occurrence order, and each value is that ingredient's summed amount. |
| Views.ShoppingTotalsSum | backend/api/views.py:229-236 | Each ingredient's total is the sum of its amounts over every ingredient row of every recipe in the user's cart, in first-occurrence order. |
| Views.ShoppingKeysAreCartIngredients | backend/api/views.py:229-236 | The dict's keys are distinct and are exactly the ingredients used by some recipe in the user's cart. |
| Views.RecipePositionsFromRows | backend/api/views.py:230-232 | A recipe's positions are exactly its ingredient rows with the ingredient resolved. |
| Views.CartPositionsFromRows | backend/api/views.py:229-232 | The positions visited are exactly the ingredient rows of the recipes on the cart rows. |
| Views.CollectShoppingCart | backend/api/views.py:221-237 | The nested loop yields one "# name" header per cart row in order, and the dict equals the fold with the proved keys and sums; an empty cart gives empty results. |
| Views.DownloadShoppingCart | backend/api/views.py:219-243 | For a signed-in requester, the collected list and dict go to file creation in the configured format, also for an empty cart. The anonymous visitor, whom the open read permission lets in, gets the not-a-user error. |
| Helpers.EmptyTotals | backend/api/views.py:226 | The empty dict is well formed and has no keys. |
| Helpers.AddAmount | backend/api/views.py:233-236 | The dict update adds the amount to an existing key or inserts it at the end; every other key keeps its value and place. |
| Helpers.CreateCsv | backend/api/helpers.py:21-42 | The rows are the recipes header, the recipe list as one cell, a blank row, the totals header, then one "name (unit) --- amount" row per dict item in order: 4 + the number of items. |
| Helpers.CreatePdf | backend/api/helpers.py:44-74 | The drawing calls match the closed-form layout: recipe i at y = 800 - 20(i+1), divider, products header 30 below it, item j 20(j+1) further down. |
| Helpers.PdfLayoutDescends | backend/api/helpers.py:57-72 | There are |recipes| + |items| + 3 calls, all at x = 100, each strictly lower than the one before. |
| Helpers.PdfHasNoLowerBound | backend/api/helpers.py:57-72 | With 40 recipes and items together, the last line is drawn below y = 0: no page break or margin is applied. |
| Helpers.CreateFile | backend/api/helpers.py:76-90 | "csv" gives the CSV attachment, "pdf" the PDF attachment, anything else a 400 with the format-error message. |
| Filters.FilterTags | backend/api/filters.py:15-18 | A recipe is kept if and only if it is in the query set and has a tag whose slug is requested. |
| Filters.FilterTagsDistinct | backend/api/filters.py:18 | The tag filter's result has no repeated recipe. |
| Filters.MarkedRecipeIds | backend/api/filters.py:30-40 | The collected ids are exactly the recipes the user has a Favorite row for (or a ShoppingList row for). |
| Filters.GetFilteredQueryset | backend/api/filters.py:30-41 | A recipe is returned if and only if it exists and the user favorited it (or put it in the cart). |
| Filters.Lower | backend/api/filters.py:49-51 | Lower-casing keeps the length, leaves no Latin or Russian capital, and leaves every other character unchanged in place. |
| Filters.SearchTerm | backend/api/filters.py:49-51 | A missing parameter gives the empty term; a given one is lower-cased. |
| Filters.LowerIdempotent | backend/api/filters.py:49-59 | Lower-casing is idempotent, so the case-insensitive lookups, which lower-case the already lowered term again, see the same term. |
| Filters.SearchFilter | backend/api/filters.py:48-61 | The result is the union of the starts-with and the contains-but-not-starts-with results. |
| Filters.StartsAndContainsDisjoint | backend/api/filters.py:53-59 | No item is in both the starts-with and the contains-but-not-starts-with results. |
| Filters.SearchIsCaseInsensitiveContains | backend/api/filters.py:53-61 | The search returns, in order, exactly the items whose name contains the term case-insensitively. |
| Filters.MissingSearchReturnsAll | backend/api/filters.py:49-61 | With an empty search term (the parameter missing or given empty) every item is returned in order. |
| Serializers.FindByUsername | backend/api/serializers.py:51-54 | The slug lookup finds a user with that username, and finds none exactly when no user has it. |
| Serializers.FindByOwnUsername | backend/api/serializers.py:51-54 | With unique usernames, looking up a user's username finds that user. |
| Serializers.ValidateFollow | backend/api/serializers.py:45-73 | An accepted follow has the current user as follower, a target resolved by username, and is neither a duplicate nor a self-follow; an unknown username is rejected. |
| Serializers.ErrorText | backend/api/serializers.py:60-72 | The duplicate and self-follow errors carry their messages. |
| Serializers.FollowUserIsReadOnly | backend/api/serializers.py:46-50 | The submitted `user` value never affects validation. |
| Serializers.SelfFollowRejected | backend/api/serializers.py:68-72 | Following oneself is always rejected, as a self-follow when the pair is not stored. |
| Serializers.DuplicateFollowRejected | backend/api/serializers.py:60-66 | An existing pair is rejected as a duplicate. |
| Serializers.ValidFollowAccepted | backend/api/serializers.py:68-73 | A new, non-self pair is accepted unchanged. |
| Models.IngredientStrRecoversUnit | backend/recipes/models.py:39-40 | The unit reads back from the display string: it is the text between the name's " (" and the final ")". |
| Models.IngredientStrSeparatesUnits | backend/recipes/models.py:39-40 | Two ingredients with the same name display alike if and only if their units agree. |
| Models.NewRecipeIngredient | backend/recipes/models.py:119-129 | The default amount lies within [1, 32000]. |
| Models.NewRecipe | backend/recipes/models.py:73-83 | The default cooking time lies within [1, 32000]. |
| Models.FavoriteCounterCountsUsers | backend/recipes/models.py:92-94 | The favorite counter equals the number of distinct users who favorited the recipe. |
| Models.DeleteRecipe | backend/recipes/models.py:105-171 | A recipe, join, Favorite or ShoppingList row survives if and only if it was there and does not belong to the deleted recipe; users, tags, ingredients and follows are unchanged. |
| Models.DeleteIngredient | backend/recipes/models.py:113-118 | An ingredient or join row survives if and only if it was there and does not belong to the deleted ingredient; every other table is unchanged. |
| Models.DeleteUser | backend/recipes/models.py:45-50 | A row survives if and only if it was there and does not depend on the user: the user, the user's recipes, the join, Favorite and ShoppingList rows of those recipes, the user's own Favorite and ShoppingList rows, and Follow rows on both sides go; tags and ingredients are unchanged. |
| Models.DeleteRecipePreservesValid | backend/recipes/models.py:105-180 | The recipe cascade keeps every key, reference and bound constraint. |
| Models.DeleteIngredientPreservesValid | backend/recipes/models.py:113-140 | The ingredient cascade keeps every constraint. |
| Models.DeleteUserPreservesValid | backend/recipes/models.py:45-180 | The user cascade keeps every constraint. |
| Users.UserStrIdentifies | backend/users/models.py:9-10 | Within a table of unique usernames, the display string identifies the user. |
| Users.RequesterId | backend/api/mixins.py:8 | The requester's id is missing exactly for the anonymous visitor. |
| Users.DeleteUserFollows | backend/users/models.py:13-17 | A follow row survives if and only if it was there and the user is on neither side. |
| Users.DeleteUserFollowsKeepsUnique | backend/users/models.py:13-25 | The follow cascade keeps the pairs unique. |
| Users.StorageAllowsSelfFollow | backend/users/models.py:13-25 | The storage layer accepts a self-follow row; only uniqueness is declared. |
| Permissions.HasObjectPermission | backend/api/permissions.py:6-8 | Staff are always granted; others are granted if and only if they authored the object. |
| Mixins.CheckAuthPermission | backend/api/mixins.py:6-9 | Fails with the not-authenticated detail if and only if the requester has no id. |
| Mixins.CheckAuthorPermission | backend/api/mixins.py:11-15 | Fails with the permission message if and only if the requester is not the recipe's author. |
| Mixins.AuthorCheckHasNoStaffExemption | backend/api/mixins.py:11-15 | A staff non-author passes the permission class but fails the author check. |
| Mixins.AuthorCheckAgreesForNonStaff | backend/api/mixins.py:11-15 | For non-staff users the author check and the permission class agree. |

## Left out

- Views.Store.Subscribe: uses the corrected payload (see Findings). The source as written is modelled by `SubscribePayloadAsWritten`.
- Views.Store.Subscribe: assumes that a successful POST stores the requester as the follower. The view calls `serializer.save()` without `user=` (backend/api/views.py:93), and the `user` field is read-only with a default. Django REST framework 3.8 and later leave such a field out of the saved data, so the insert would fail on the non-null `user` column; the framework version is not part of this model.
- Views.Store.Subscribe: takes the author id as a number. A non-numeric URL id makes the lookup at backend/api/views.py:85 raise a server error instead of answering 404; that path is left out.
- Views.GetQueryset: an anonymous requester with a filter parameter raises AttributeError in the source. Here it is the error value `AnonymousHasNoRelations`.
- Views.Subscriptions: the anonymous visitor's AttributeError on `user.follower` is the error value `AnonymousHasNoRelations`; the resulting server error response is left out.
- Views.DownloadShoppingCart: the anonymous visitor's TypeError from filtering by `user` is the error value `AnonymousIsNotAUser`; the resulting server error response is left out.
- Views.CollectShoppingCart: takes the signed-in requester's id; the anonymous case is decided before it, in `DownloadShoppingCart`.
- Views.UserViewPermissions: models only the classes set at lines 38-44. djoser's own `get_permissions`, reached through `super()`, replaces them for its own actions (with its default settings, registration through `create` is open); that library is not part of this model.
- `favorite` and `shopping_cart` delegate to `add_delete_model_helper`, which is not part of this model; their toggles are left out.
- Recipe creation and update are left out: serializer field handling, image upload, `perform_create`.
- The pagination of `subscriptions` and its response serializer are left out.
- The view calls `create_file_helper`, and imports the helper class from `backend/api/mixins.py`, which defines no such class. The model assumes the `create_file` of `backend/api/helpers.py`.
- The download handler takes the attachment format as a parameter; the settings module is not part of this model.
- The PDF font registration, `showPage` and `save`, and the HTTP response headers are left out.
- The CSV writer's quoting, and its rendering of the recipe list as one cell, are left out. The list is kept as a single `ListCell`.
- The renderers only read their inputs. The model states this by value semantics and has no separate lemma for it.
- Filters.Lower: lower-cases ASCII and Russian capitals (including Ё) only; the rest of the Unicode case mapping is left out.
- djoser's `CurrentUserOrAdmin` and DRF's `IsAuthenticated` are represented only by name, not by their decision logic.
- `Recipe.image` and `pub_date`, `__str__` of tags, recipes and rows, and the admin display decorator are left out.
- The database's own enforcement is not modelled. It is not executable logic here; the constraints appear as predicates that the cascades are proved to preserve.
- Concurrency between requests is left out: each request is one atomic step.
- The CSV import management command (file and log I/O) is left out.
- `backend/api/serializers.py` imports names that `backend/recipes/models.py` does not define. `Follow` is taken from `backend/users/models.py`.

## Findings

| source | as written | input that shows it | evidently intended | confidence | as-written member | corrected member |
|---|---|---|---|---|---|---|
| backend/api/views.py:88-91 | `subscribe` submits `author.pk` to the `following` field. That field looks users up by `username` (backend/api/serializers.py:51-54). | Users alice (id 1) and bob (id 2). alice subscribes to id 2: the lookup for username "2" fails with 400. If a user named "2" exists, validation resolves that user instead of bob. | Submit `author.username`, so that the follow targets the author named in the URL | not executed | Views.AsWrittenSubscribeMissesAuthor | Views.SubscribePayloadTargetsAuthor |
