# Foodgram (Grocery-assistant) core, modelled in Dafny

Foodgram is a Django REST recipe site. Users publish recipes, follow authors,
keep a favourites list and a shopping cart, and download a combined shopping
list. This project models the rules behind those endpoints. The ORM is replaced
by one in-memory store (`Api.Store`), whose tables are sets, maps and one
newest-first sequence.

- `common.dfy`: the Common module. It holds options and results, the status codes of the endpoints, and primary-key types. It also proves that the serializer's `len(s) != len(set(s))` test means "not distinct".
- `numerals.dfy`: the Numerals module. It holds `f'{n}'` for counts and Python's `int()` on a query-string value.
- `widgets.dfy`: the Widgets module, for the colour-picker widget. It models `value_from_datadict`, the `#` prefix of `render` and the `SELECTED_COLORS` generator.
- `middleware.dfy`: the Middleware module, for `BlockUserMiddleware.__call__`. It models token-key extraction and the 401 for blocked users.
- `models.dfy`: the Models module. It holds the entities, their field limits, the slug validators and the per-row constraints.
- `serializers.dfy`: the Serializers module. It models:
  - field and cross-field validation of a recipe payload;
  - the ingredient rows a payload becomes;
  - the keyword arguments of the create call;
  - `recipes_limit`, `get_recipes`, `get_is_subscribed` and `get_recipes_count`.
  - the fields the subscription serializer answers, for a user and for a `Subscribe` row.
- `ordering.dfy`: the Ordering module, for the default recipe ordering (newest `pub_date` first) and the order-preserving filters over it.
- `shopping.dfy`: the ShoppingList module. The `GROUP BY name, unit` / `SUM(amount)` of the download is a pure function. The `content +=` loop is a method proved against it.
- `api.dfy`: the Api module. The `Store` class holds the views' tables as fields, and each of its methods states its whole new state. The schema's integrity rules are a predicate, `TablesOk`. A value-level lemma proves that each transition preserves it, and every method keeps it.
- `scenarios.dfy`: the Scenarios module. It holds two-request sequences against one store.

Behaviour of the code that is easy to misread:

- An empty ingredient list passes `validate`: duplicates are its only ingredient check.
- The shopping list is not sorted: the query has no `order_by`.
- `is_author_or_admin` checks authorship only: no administrator passes.
- Favourites and cart are one row per user, holding a set of recipes. They are not one row per (user, recipe) pair.

## Model

| member | source | states |
|---|---|---|
| `Common.DistinctIffSameCardinality` | backend/api/serializers.py:146-160 | the length test `len(ids) != len(set(ids))` fails exactly when some id repeats |
| `Numerals.NatToString` | backend/api/views.py:320-323 | `f'{n}'` of a non-negative count is a non-empty digit string with no leading zero |
| `Numerals.NatToStringValue` | backend/api/views.py:320-323 | the rendered digits denote the number rendered |
| `Numerals.ParseInt` | backend/api/serializers.py:248-251 | on ASCII text, `int(text)` succeeds exactly on an optional sign followed by one or more digits; anything else is the `ValueError` case |
| `Numerals.ParseNatToString` | backend/api/serializers.py:248-251 | parsing a rendered count gives the count back |
| `Numerals.ParseNegative` | backend/api/serializers.py:248-253 | a minus sign followed by a count parses to the negative number |
| `Widgets.LStripHash` | backend/recipes/widgets.py:17 | `lstrip('#')` removes exactly the leading run of '#': the result is a suffix of the input, everything cut is '#', and the result does not start with '#' |
| `Widgets.LStripHashIdempotent` | backend/recipes/widgets.py:17 | stripping twice equals stripping once |
| `Widgets.ValueFromDatadict` | backend/recipes/widgets.py:14-18 | a missing value stays missing, an empty value is returned as is, and a non-empty value loses exactly its leading '#' characters |
| `Widgets.ValueFromDatadictIdempotent` | backend/recipes/widgets.py:14-18 | reading back a value already read changes nothing |
| `Widgets.RenderValue` | backend/recipes/widgets.py:20-22 | a non-empty value without '#' gets exactly one '#' in front; an empty value, a missing value or one starting with '#' is unchanged |
| `Widgets.RenderThenRead` | backend/recipes/widgets.py:14-22 | the '#' that `render` adds is the one `value_from_datadict` removes |
| `Widgets.ReadThenRender` | backend/recipes/widgets.py:14-22 | reading a colour then rendering it yields it with exactly one leading '#' |
| `Widgets.SelectedColorsAsWritten` | backend/recipes/widgets.py:6-8 | the generator as written yields every second pair component (the colour name) of at most 7 characters, and only those |
| `Widgets.SelectedColorsAsWrittenYieldsNames` | backend/recipes/widgets.py:6-8 | on the table entry ("#00ffff", "aqua") the generator yields "aqua", which is not a hex colour |
| `Widgets.SelectedColors` | backend/recipes/widgets.py:6-8 | every hex value of at most 7 characters is offered, and nothing else |
| `Widgets.SelectedColorsAreHex` | backend/recipes/widgets.py:6-8 | over a table keyed by hex colours, every offered entry is a hex colour and every entry is offered |
| `Middleware.Split` | backend/users/middleware.py:18 | `split(' ')` yields at least one segment, no segment holds a space, and joining the segments with single spaces restores the text |
| `Middleware.TokenKey` | backend/users/middleware.py:18 | the token key is the part of the header after its last space, or the whole header when it has no space: a suffix of the header holding no space, preceded by a space unless it is the whole header |
| `Middleware.Call` | backend/users/middleware.py:15-30 | 401 with the fixed detail exactly when the header's token is known and its user is blocked; otherwise the downstream response, unchanged |
| `Middleware.NoHeaderPassesThrough` | backend/users/middleware.py:16-30 | without an `Authorization` header the downstream response is returned |
| `Middleware.UnknownTokenPassesThrough` | backend/users/middleware.py:26-30 | an unknown token key is handed on, not rejected |
| `Middleware.NewUserPassesThrough` | backend/users/migrations/0002_user_is_blocked_subscribe_prevent_self_subscription.py:13-17 | a user with the default `is_blocked` is never rejected, whatever header carries their token |
| `Middleware.BlockedTokenRejected` | backend/users/middleware.py:18-25 | "Token <key>" for a blocked user's key gets the 401 |
| `Models.NewUser` | backend/users/migrations/0002_user_is_blocked_subscribe_prevent_self_subscription.py:13-17 | a new account is not blocked |
| `Models.SlugFieldAcceptsExactly` | backend/recipes/models.py:42-53 | a slug is accepted exactly when it is 1 to 200 characters of ASCII letters, digits, '-' and '_' |
| `Models.SlugRegexAllowsTrailingNewline` | backend/recipes/models.py:47-51 | for every non-empty slug s, the extra regular expression alone accepts s followed by a newline; the slug field's own validator rejects it |
| `Models.UniqueSlugs` | backend/recipes/models.py:42-45 | no two tags share a slug |
| `Models.UniqueIngredientRows` | backend/recipes/models.py:137-142 | no two rows of one recipe name the same ingredient |
| `Models.RowAmountsPositive` | backend/recipes/models.py:123-131 | every row's amount is at least 1 |
| `Models.ValidRecipe` | backend/recipes/models.py:93-100 | the cooking time is at least 1 |
| `Models.RecipesBy` | backend/recipes/models.py:64-70 | the author's related recipes are exactly the existing recipes whose author is that user |
| `Serializers.FieldErrors` | backend/api/serializers.py:99-137 | a field is reported exactly when its own check fails: name and text present (unless partial), cooking time in [1, 1440], every ingredient existing with amount in [1, 1000], every tag existing |
| `Serializers.IngredientIds` | backend/api/serializers.py:146 | the ingredient ids of the payload, entry by entry |
| `Serializers.Validate` | backend/api/serializers.py:144-161 | duplicate ingredients are rejected first, then an empty tag list, then duplicate tags; a payload passing all three is returned unchanged; an empty ingredient list passes |
| `Serializers.IsValid` | backend/api/serializers.py:99-161 | field errors are reported together and stop validation before `validate`; the payload is accepted exactly when every rule holds, and is then returned unchanged |
| `Serializers.RowsOf` | backend/api/serializers.py:163-173 | one ingredient row per payload entry, in order, carrying its amount |
| `Serializers.AcceptedRowsKeepConstraints` | backend/recipes/models.py:123-142 | the rows made from an accepted payload satisfy the table: one row per ingredient, amounts at least 1, existing ingredients |
| `Serializers.SaveData` | backend/api/views.py:182 | `save(**kwargs)` hands `create` the validated data with the keyword arguments added, and the keywords win |
| `Serializers.CallWithKeyword` | backend/api/serializers.py:179 | `f(**data, key=v)` is a TypeError exactly when `key` is already in `data` |
| `Serializers.CreateKwargsAsWritten` | backend/api/serializers.py:175-182 | as written, the create call fails for every validated payload |
| `Serializers.CreateKwargs` | backend/api/serializers.py:175-182 | the intended call passes every validated field and the requester as author, once |
| `Serializers.RecipesLimit` | backend/api/serializers.py:248-251 | a missing or non-numeric `recipes_limit` is 0; otherwise the number it denotes |
| `Serializers.GetRecipes` | backend/api/serializers.py:246-261 | with a positive limit, the first min(limit, n) recipes in order; otherwise all of them |
| `Serializers.NoLimitReturnsAll` | backend/api/serializers.py:248-256 | a missing, non-numeric or non-positive limit returns every recipe |
| `Serializers.LimitKeepsPrefix` | backend/api/serializers.py:249-254 | `?recipes_limit=n` with n > 0 keeps the first min(n, count) recipes |
| `Serializers.GetIsSubscribed` | backend/api/serializers.py:37-40 | true exactly when the requester is authenticated and follows the user |
| `Serializers.GetRecipesCount` | backend/api/serializers.py:263-264 | the number of the user's recipes: at most the number of recipes, and zero exactly when none is theirs |
| `Serializers.ToRepresentation` | backend/api/serializers.py:236-264 | the answer carries the declared fields the object has plus the method fields; a method field on an object that is not a user is a server error, and nothing else is |
| `Serializers.ToRepresentationMany` | backend/api/views.py:83-86 | `many=True` succeeds exactly when every object serializes, and then answers each object's fields in order; otherwise a server error |
| `Serializers.SubscribeSerializerOn` | backend/api/serializers.py:236-264 | handed the followed user, the subscription serializer answers every declared field; handed the `Subscribe` row, it answers a server error |
| `Ordering.InsertNewest` | backend/recipes/models.py:101-106 | a new recipe goes into the listing once; distinctness and newest-first order are kept |
| `Ordering.Keep` | backend/api/serializers.py:254-256 | a filter over the listing keeps exactly the selected recipes, no more than before, and keeps distinctness |
| `Ordering.KeepNewestFirst` | backend/recipes/models.py:106 | a filtered newest-first listing is still newest first |
| `Ordering.KeepUndoesInsert` | backend/recipes/models.py:101-106 | filtering out the recipe just inserted gives what filtering gave before the insertion |
| `ShoppingList.AddItem` | backend/api/views.py:313-317 | one row is added to its (name, unit) group, or opens a new group at the end; group keys stay distinct |
| `ShoppingList.AddItemExtendsAggregate` | backend/api/views.py:313-317 | folding one more row into the groups of the others gives the groups of all of them |
| `ShoppingList.Aggregate` | backend/api/views.py:313-317 | one group per distinct (name, unit) among the rows, each holding the sum of the amounts of its rows |
| `ShoppingList.AggregateGroupsEveryKeyOnce` | backend/api/views.py:313-317 | every (name, unit) of the rows has exactly one group, whose total is that key's sum |
| `ShoppingList.Lines` | backend/api/views.py:319-323 | line i reads `"<first+i>. name - total unit\n"` |
| `ShoppingList.BodyIsNumberedLines` | backend/api/views.py:319-324 | the text after the header is the lines numbered 1..n, concatenated |
| `ShoppingList.Render` | backend/api/views.py:311-324 | the `content +=` loop produces the header followed by each group's numbered line |
| `ShoppingList.EmptyListIsHeader` | backend/api/views.py:311 | no rows give the header alone |
| `ShoppingList.ShoppingListLines` | backend/api/views.py:311-324 | the document is the header, then one line per distinct (name, unit) of the rows, numbered from 1 and carrying that key's total |
| `Api.NewRecipe` | backend/api/serializers.py:175-182 | the created recipe's author is the requester, its tags are the payload's tags, and its date is the creation time |
| `Api.Updated` | backend/api/serializers.py:184-188 | supplied fields replace the old ones; tags are replaced wholesale; author and `pub_date` stay |
| `Api.RemoveRecipes` | backend/recipes/models.py:145-199 | deleting recipes removes exactly them from every user's favourites and cart, and no user's row disappears |
| `Api.ItemsOf` | backend/api/views.py:313-317 | each ingredient row joined with its ingredient's name and unit, keeping its amount |
| `Api.Gather` | backend/api/views.py:313-315 | a cart holding none of the recipes contributes no rows |
| `Api.RecipesTotalRemove` | backend/api/views.py:313-317 | the per-recipe sum of a key's amounts does not depend on which recipe is taken first |
| `Api.GatherTotal` | backend/api/views.py:313-317 | over a listing without repeats, the gathered rows hold, for each (name, unit), the sum of its amounts over the listed recipes in the cart, each counted once |
| `Api.GatherKeys` | backend/api/views.py:313-317 | a (name, unit) occurs among the gathered rows exactly when some recipe in the cart has a row with it |
| `Api.OrderOkInsert` | backend/recipes/models.py:101-106 | inserting a new recipe keeps the listing a newest-first enumeration of all recipes |
| `Api.OrderOkRemove` | backend/recipes/models.py:106 | deleting recipes keeps the listing a newest-first enumeration of those left |
| `Api.Unfollow` | backend/api/views.py:43-46 | a deleted user's subscriptions, both from and to them, are removed; every other subscription stays |
| `Api.RemoveUndoesInsert` | backend/api/views.py:181-220 | deleting the recipe just created restores every table; only the id counter has moved on |
| `Api.CreateUserKeepsTablesOk` | backend/recipes/models.py:167-199 | registering a user with one empty favourites row and one empty cart keeps every integrity rule |
| `Api.SetListKeepsTablesOk` | backend/api/views.py:245-288 | giving a user's favourites or cart another set of existing recipes keeps every integrity rule |
| `Api.CreateRecipeKeepsTablesOk` | backend/api/serializers.py:163-182 | inserting a valid recipe with conforming rows keeps every integrity rule, including the newest-first order |
| `Api.UpdateRecipeKeepsTablesOk` | backend/api/serializers.py:184-188 | replacing a recipe's fields and rows, with the same author and date, keeps every integrity rule |
| `Api.DeleteRecipeKeepsTablesOk` | backend/recipes/models.py:112-117 | deleting a recipe with its rows and list entries keeps every integrity rule |
| `Api.DeleteUserKeepsTablesOk` | backend/recipes/models.py:64-70 | deleting a user with their recipes, lists and subscriptions keeps every integrity rule |
| `Api.ListGateAsWritten` | backend/api/mixins.py:10-19 | the favourite and cart views as written: 404 for an unknown recipe, then a server error for an anonymous requester; an authenticated requester passes exactly when the recipe exists |
| `Api.ListGate` | backend/api/views.py:245-288 | the intended gate: 401 for an anonymous requester before any lookup; for an authenticated one, the gate as written |
| `Api.AnonymousListRequestFails` | backend/api/views.py:245-288 | an anonymous request for an existing recipe gets a server error as written and 401 as intended |
| `Api.InList` | backend/api/views.py:158-176 | the `Exists` annotation over one list is true exactly when the requester is authenticated and its row holds the recipe |
| `Api.Annotate` | backend/api/views.py:158-176 | each recipe's `is_favorited` / `is_in_shopping_cart` is true exactly when the requester is authenticated and holds it in that list |
| `Api.Summaries` | backend/api/serializers.py:221-233 | each recipe is shown with its id, name and cooking time, in order |
| `Api.AuthorViewFrom` | backend/api/serializers.py:236-264 | the author view carries `is_subscribed`, the recipes `get_recipes` keeps, and `recipes_count` equal to the author's number of recipes |
| `Api.Store.PostSave` | backend/recipes/models.py:167-199 | a created user gets one empty favourites row and one empty cart; saving an existing user creates nothing |
| `Api.Store.CreateUser` | backend/recipes/models.py:167-199 | the new user takes the next id and has exactly one empty favourites row and one empty cart, and no other table changes |
| `Api.Store.DeleteUser` | backend/recipes/models.py:64-70 | the user's recipes, with their rows, listing entries and list entries, are deleted along with the user's own lists and subscriptions |
| `Api.Store.Subscribe` | backend/api/views.py:106-127 | the intended create: 404 for an unknown target, then 400 for oneself, then 400 for an existing subscription; otherwise exactly one pair is added and the answer, the followed user serialized, carries the recipe count and `is_subscribed` true |
| `Api.Store.SubscribeAsWritten` | backend/api/views.py:112-127 | the create as written: the same refusals; where a subscription is new, the pair is stored and the answer is a server error, never 201 |
| `Api.Store.Unsubscribe` | backend/api/views.py:106-137 | 404 for an unknown target, then 403 for oneself, then 404 for a missing pair; otherwise exactly that pair is removed |
| `Api.Store.AddToList` | backend/api/views.py:245-279 | 401 for an anonymous requester, 404 for an unknown recipe, 400 when it is already listed; otherwise the list gains exactly that recipe; the other list never changes |
| `Api.Store.RemoveFromList` | backend/api/views.py:256-288 | 401 for an anonymous requester, 404 for an unknown recipe, 400 when it is absent; otherwise exactly that recipe is removed; the other list never changes |
| `Api.Store.SetList` | backend/api/views.py:252-284 | one user's list row is written, and the other list is untouched |
| `Api.Store.AuthorGate` | backend/api/views.py:201-207 | 404 for an unknown recipe, 403 unless the requester is its author, otherwise the recipe |
| `Api.Store.CreateRecipe` | backend/api/serializers.py:175-182 | a rejected payload gives 400 and writes nothing; otherwise one recipe authored by the requester, with the payload's fields and tags, one row per entry, placed in the newest-first listing |
| `Api.Store.InsertRecipe` | backend/api/serializers.py:163-182 | the recipe goes in under a fresh id with exactly its rows; nothing else changes |
| `Api.Store.UpdateRecipe` | backend/api/views.py:209-215 | the author check first, then validation; on success the recipe's rows become exactly the payload's and its tags the payload's, and no other recipe changes |
| `Api.Store.ReplaceRecipe` | backend/api/serializers.py:184-188 | exactly this recipe's row and rows are replaced |
| `Api.Store.DeleteRecipe` | backend/api/views.py:217-220 | the author check first; then the recipe, its rows and its list entries are deleted |
| `Api.Store.RemoveRecipe` | backend/recipes/models.py:112-117 | the cascade of one recipe's deletion: its rows, its listing entry and its entries in every list |
| `Api.Store.AnnotatedRecipes` | backend/api/views.py:158-179 | every recipe, newest first, with both flags for the requester |
| `Api.Store.AnonymousSeesNoFlags` | backend/api/views.py:172-176 | an anonymous requester sees both flags false on every recipe |
| `Api.Store.AnnotatedUsers` | backend/api/views.py:39-52 | every user, with `is_subscribed` true exactly when the authenticated requester follows them |
| `Api.Store.Authored` | backend/api/serializers.py:254-256 | the author's recipes, each once, newest first, as many as `recipes_count` |
| `Api.Store.SubscriptionsAsWritten` | backend/api/views.py:73-86 | the `subscriptions` action as written: an empty page exactly when the requester follows nobody, a server error otherwise |
| `Api.Store.AuthorViewOf` | backend/api/serializers.py:246-264 | `is_subscribed`, `recipes_count`, and the author's newest min(limit, count) recipes (all of them without a positive limit) |
| `Api.Store.Joined` | backend/api/views.py:313-317 | every recipe's rows joined with their ingredients |
| `Api.Store.CartItems` | backend/api/views.py:313-315 | an empty cart contributes no rows |
| `Api.Store.CartTotals` | backend/api/views.py:313-317 | for each (name, unit), the cart's rows sum to the total of that key over the recipes in the cart, each counted once |
| `Api.Store.ShoppingListTotals` | backend/api/views.py:313-317 | each group of the list carries the sum of its key's amounts over the recipes in the cart |
| `Api.Store.CartKeys` | backend/api/views.py:313-317 | the list has a (name, unit) exactly when some recipe in the cart has a row with that name and unit |
| `Api.Store.DownloadShoppingCart` | backend/api/views.py:306-331 | the document is the header followed by the numbered groups of the cart's rows, each group carrying its key's sum over the recipes in the cart |
| `Api.Store.EmptyCartYieldsHeader` | backend/api/views.py:311-324 | an empty cart yields the header alone |
| `Scenarios.SubscribeThenUnsubscribe` | backend/api/views.py:112-137 | subscribing and then unsubscribing leaves the subscriptions as they were |
| `Scenarios.SubscribeTwice` | backend/api/views.py:118-127 | the first subscription gives 201, a repeated one gives 400, and the pair is added once |

## Left out

- HTTP dispatch, routing, pagination, DRF permission classes and response bodies are left out. Outcomes are a status enum. The subscription and recipe-write operations take an authenticated requester who exists (`requester in users`), as their `IsAuthenticated` and `IsAuthenticatedOrReadOnly` permissions guarantee. The favourite and cart views allow any requester, so `Api.Store.AddToList` and `Api.Store.RemoveFromList` take an optional one.
- The ORM (`Exists`, `OuterRef`, `annotate`, prefetching) is replaced by the store's maps and sets. Database ids come from counters (`nextUser`, `nextRecipe`).
- The clock is a parameter: `pub_date` is the `now` argument of `Api.Store.CreateRecipe`.
- Images (base64 decoding and storage) and password hashing are not modelled.
- `set_password`, the user-create and user-list serializers, and `perform_create` of users are not modelled.
- The `subscriptions` list action of `UsersViewSet` serializes the requester's `Subscribe` rows, not the users they follow, and fails on them as `Api.Store.SubscribeAsWritten` does; `Api.Store.SubscriptionsAsWritten` models it, without pagination. `Api.AuthorViewFrom` and `Api.Store.AuthorViewOf` model what it would answer if it serialized the followed users.
- The flag annotations that `perform_create` puts on a newly created recipe are not modelled. A new recipe is in no list, so both flags are false.
- A partial update that omits `ingredients` or `tags` raises a `KeyError` in `validate` and `update`, because both index those keys directly. The payload model always carries both lists, so that crash is not modelled.
- The debug `print` in `validate` is not modelled.
- `Numerals.ParseInt`: it does not accept the surrounding whitespace, the underscores between digits or the non-ASCII decimal digits (such as '٣' or '３') that Python's `int()` also accepts.
- `Middleware.Call`: header names are matched exactly, whereas `request.headers` matches them case-insensitively.
- `Serializers.FieldErrors`: text must be non-empty and the name at most 200 characters. The other DRF field checks (blank strings, types) and the per-field error messages are not modelled.
- `ShoppingList.Aggregate`: groups come in order of first appearance. `GROUP BY` fixes no order, so only numbering, keys and totals are meaningful.
- The `Subscribe` model class is outside the modelled code: backend/users/models.py declares only `User`. Its fields `user` and `author` are taken from the filters in backend/api/views.py:43-46 and 132-136, and its self-subscription check from the migration; the `SubscriptionsOk` rule states that check.
- `Api.Unfollow`: the removal of a deleted user's subscriptions assumes that both foreign keys of `Subscribe` cascade, since no modelled file declares them.
- `is_blocked` is not declared in backend/users/models.py; the model takes the field and its default from migration 0002 (lines 13-17).
- `Api.Store.SubscribeAsWritten`: the pair stays stored after the server error, which assumes that requests are not wrapped in a transaction (no modelled file sets `ATOMIC_REQUESTS`).
- `Api.Store.AnnotatedUsers`: the map carries no order; the user listing's default `-date_joined` ordering (backend/users/models.py:38) is not modelled.
- The default ordering of ingredients and tags by name is not modelled: the modelled code never lists them.
- The admin console, its forms and the colour-name conversion in `webcolors` are not modelled. The colour table is a parameter of `Widgets.SelectedColors`.
- `Widgets.SelectedColors`: `SELECTED_COLORS` is a module-level generator, so the first widget that iterates it consumes it and every later render offers no colours; the model gives the entries of that first iteration.
- The template rendering in `ColorPickerWidget.render` is not modelled; only the value it hands on is.
- The management commands and the declarative filters are not modelled. Both are file or environment I/O, or library configuration.
- Creating a recipe and then deleting it is not written as a sequence of store method calls. That round trip is stated on the tables by `Api.RemoveUndoesInsert`.

## Findings

| source | as written | input that shows it | evidently intended | confidence | as-written member | corrected member |
|---|---|---|---|---|---|---|
| backend/recipes/widgets.py:6-8 | the items of the hex-to-name table are unpacked as `name, hex_value`, so the generator yields the second component, the colour name | the table entry ("#00ffff", "aqua") yields "aqua" | yield the hex value of each entry of at most 7 characters | not executed | `Widgets.SelectedColorsAsWritten` (`Widgets.SelectedColorsAsWrittenYieldsNames`) | `Widgets.SelectedColors` (`Widgets.SelectedColorsAreHex`) |
| backend/api/serializers.py:179 | `perform_create` calls `save(author=...)`, so `author` is already in `validated_data`; `Recipe.objects.create(**validated_data, author=user)` then passes `author` twice | any valid recipe payload posted by any user | pass the requester as author once | not executed; relies on DRF's `save()` merging its keyword arguments into `validated_data` | `Serializers.CreateKwargsAsWritten` | `Serializers.CreateKwargs`; `Api.Store.CreateRecipe` uses author = requester |
| backend/api/mixins.py:13 | the favourite and cart views allow any requester; the view then reads `request.user.favorite_recipe` (or `shopping_cart`), which an anonymous user lacks | an anonymous POST or DELETE for an existing recipe | answer 401, as the subscription and download views do | not executed; relies on Django's anonymous user having no such attribute | `Api.ListGateAsWritten` (`Api.AnonymousListRequestFails`) | `Api.ListGate`; `Api.Store.AddToList` and `Api.Store.RemoveFromList` use it |
| backend/api/views.py:122-124 | the 201 answer serializes the new `Subscribe` row, not the followed user; the serializer's method fields filter by `author=obj` and read `obj.recipe`, which a `Subscribe` row cannot serve | any authenticated user following an author they do not yet follow | serialize the followed user (`instance`), whose recipe count the view already adds | not executed; no modelled file declares the `Subscribe` model, and the outcome relies on DRF skipping read-only fields an object lacks | `Api.Store.SubscribeAsWritten` (`Serializers.SubscribeSerializerOn`) | `Api.Store.Subscribe` |
| backend/api/views.py:78-86 | the `subscriptions` action hands `SubscribeSerializer` the requester's `Subscribe` rows, whose method fields cannot serve them | any authenticated user who follows at least one author | serialize the followed users, each with `is_subscribed`, the limited recipes and `recipes_count` | not executed; rests on the same assumptions as the row above | `Api.Store.SubscriptionsAsWritten` (`Serializers.SubscribeSerializerOn`) | `Api.Store.AuthorViewOf` |
