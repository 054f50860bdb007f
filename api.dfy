/** The data the API views work on, as one in-memory store, and the views'
    operations on it: subscriptions, favourites and shopping cart, recipe
    create/update/delete behind the author check, the read-side annotations
    and the shopping-list download. */
module Api {
  import opened Common
  import opened Models
  import opened Serializers
  import opened Ordering
  import SL = ShoppingList

  /** The two per-user recipe lists the favourite and cart views share
      their logic over. */
  datatype ListKind = Favorites | ShoppingCart

  function Other(kind: ListKind): ListKind {
    if kind == Favorites then ShoppingCart else Favorites
  }

  /** The fields the subscribe view sets on its 201 answer. */
  datatype SubscriptionAnswer = SubscriptionAnswer(recipesCount: nat, isSubscribed: bool)

  /** A recipe as the recipe list shows it to a requester. */
  datatype RecipeView = RecipeView(id: RecipeId, recipe: Recipe, isFavorited: bool, isInShoppingCart: bool)

  /** `ObjectRecipeSerializer` (the image is not modelled). */
  datatype RecipeSummary = RecipeSummary(id: RecipeId, name: string, cookingTime: int)

  /** An author as `SubscribeSerializer` shows them. */
  datatype AuthorView = AuthorView(id: UserId, isSubscribed: bool, recipes: seq<RecipeSummary>, recipesCount: nat)

  /** The recipe row `RecipeWriteSerializer.create` inserts. */
  function NewRecipe(author: UserId, p: RecipePayload, now: int): (r: Recipe)
    requires p.name.Some? && p.text.Some? && p.cookingTime.Some?
    ensures r.author == author && r.tags == Elements(p.tags) && r.pubDate == now
  {
    Recipe(author, p.name.value, p.text.value, p.cookingTime.value, Elements(p.tags), now)
  }

  /** The row after `update`: the supplied fields replace the old ones, the
      tags are replaced wholesale, the author and `pub_date` stay. */
  function Updated(old_: Recipe, p: RecipePayload): (r: Recipe)
    ensures r.author == old_.author && r.pubDate == old_.pubDate
    ensures r.tags == Elements(p.tags)
    ensures r.name == (if p.name.Some? then p.name.value else old_.name)
    ensures r.text == (if p.text.Some? then p.text.value else old_.text)
    ensures r.cookingTime == (if p.cookingTime.Some? then p.cookingTime.value else old_.cookingTime)
  {
    old_.(name := p.name.GetOr(old_.name),
          text := p.text.GetOr(old_.text),
          cookingTime := p.cookingTime.GetOr(old_.cookingTime),
          tags := Elements(p.tags))
  }

  /** The many-to-many rows of every user's list, once `gone` is deleted. */
  function RemoveRecipes(lists: map<UserId, set<RecipeId>>, gone: set<RecipeId>): (r: map<UserId, set<RecipeId>>)
    ensures r.Keys == lists.Keys
    ensures forall u :: u in r ==> r[u] == lists[u] - gone
  {
    map u | u in lists :: lists[u] - gone
  }

  /** A recipe row joined with its ingredient, as the shopping-list query
      reads it. */
  function ItemsOf(rs: seq<Row>, ingredients: map<IngredientId, Ingredient>): (items: seq<SL.Item>)
    requires forall i :: 0 <= i < |rs| ==> rs[i].ingredient in ingredients && rs[i].amount >= 0
    ensures |items| == |rs|
    ensures forall i :: 0 <= i < |rs| ==>
      items[i] == SL.Item(SL.Key(ingredients[rs[i].ingredient].name, ingredients[rs[i].ingredient].measurementUnit),
                          rs[i].amount)
  {
    if rs == [] then []
    else
      var ing := ingredients[rs[0].ingredient];
      [SL.Item(SL.Key(ing.name, ing.measurementUnit), rs[0].amount)] + ItemsOf(rs[1..], ingredients)
  }

  /** The rows of the recipes among `ids` that are in `cart`, recipe by
      recipe. */
  function Gather(ids: seq<RecipeId>, cart: set<RecipeId>, joined: map<RecipeId, seq<SL.Item>>): (items: seq<SL.Item>)
    requires forall i :: 0 <= i < |ids| ==> ids[i] in joined
    ensures (forall i :: 0 <= i < |ids| ==> ids[i] !in cart) ==> items == []
  {
    if ids == [] then []
    else (if ids[0] in cart then joined[ids[0]] else []) + Gather(ids[1..], cart, joined)
  }

  /** Some recipe among `ids` that is in `cart` has a row with key `k`. */
  ghost predicate SomeCartRecipeHas(ids: seq<RecipeId>, cart: set<RecipeId>, joined: map<RecipeId, seq<SL.Item>>, k: SL.Key)
    requires forall i :: 0 <= i < |ids| ==> ids[i] in joined
  {
    exists i :: 0 <= i < |ids| && ids[i] in cart && k in SL.ItemKeys(joined[ids[i]])
  }

  lemma {:induction false} SomeCartRecipeHasCons(ids: seq<RecipeId>, cart: set<RecipeId>, joined: map<RecipeId, seq<SL.Item>>, k: SL.Key)
    requires ids != [] && forall i :: 0 <= i < |ids| ==> ids[i] in joined
    ensures SomeCartRecipeHas(ids, cart, joined, k) <==>
      (ids[0] in cart && k in SL.ItemKeys(joined[ids[0]])) || SomeCartRecipeHas(ids[1..], cart, joined, k)
  {
    if SomeCartRecipeHas(ids[1..], cart, joined, k) {
      var i :| 0 <= i < |ids[1..]| && ids[1..][i] in cart && k in SL.ItemKeys(joined[ids[1..][i]]);
      assert ids[i + 1] == ids[1..][i];
    }
    if SomeCartRecipeHas(ids, cart, joined, k) {
      var i :| 0 <= i < |ids| && ids[i] in cart && k in SL.ItemKeys(joined[ids[i]]);
      if i > 0 {
        assert ids[1..][i - 1] == ids[i];
      }
    }
  }

  /** A key occurs among the gathered rows exactly when some recipe in the
      cart has a row with that key. */
  lemma {:induction false} GatherKeys(ids: seq<RecipeId>, cart: set<RecipeId>, joined: map<RecipeId, seq<SL.Item>>, k: SL.Key)
    requires forall i :: 0 <= i < |ids| ==> ids[i] in joined
    ensures k in SL.ItemKeys(Gather(ids, cart, joined)) <==> SomeCartRecipeHas(ids, cart, joined, k)
  {
    if ids != [] {
      var here := if ids[0] in cart then joined[ids[0]] else [];
      var rest := Gather(ids[1..], cart, joined);
      ItemKeysAppend(here, rest);
      GatherKeys(ids[1..], cart, joined, k);
      SomeCartRecipeHasCons(ids, cart, joined, k);
    }
  }

  /** Some element of a non-empty set. */
  ghost function Pick(s: set<RecipeId>): (r: RecipeId)
    requires s != {}
    ensures r in s
  {
    var r :| r in s; r
  }

  /** The amount of key `k` summed over the rows of the recipes in `s`, each
      recipe counted once. */
  ghost function RecipesTotal(s: set<RecipeId>, joined: map<RecipeId, seq<SL.Item>>, k: SL.Key): nat
    requires s <= joined.Keys
    decreases s
  {
    if s == {} then 0
    else
      var r := Pick(s);
      SL.Total(joined[r], k) + RecipesTotal(s - {r}, joined, k)
  }

  /** The sum does not depend on which recipe is taken first: any one of
      them can be split off. */
  lemma {:induction false} RecipesTotalRemove(s: set<RecipeId>, joined: map<RecipeId, seq<SL.Item>>, k: SL.Key, x: RecipeId)
    requires s <= joined.Keys && x in s
    ensures RecipesTotal(s, joined, k) == SL.Total(joined[x], k) + RecipesTotal(s - {x}, joined, k)
    decreases s
  {
    var r := Pick(s);
    if r != x {
      RecipesTotalRemove(s - {r}, joined, k, x);
      RecipesTotalRemove(s - {x}, joined, k, r);
      assert s - {r} - {x} == s - {x} - {r};
    }
  }

  /** Over a listing without repeats, the gathered rows carry, for each key,
      the sum of that key's amounts over the recipes of the listing that are
      in the cart: no row is dropped, repeated or invented. */
  lemma {:induction false} GatherTotal(ids: seq<RecipeId>, cart: set<RecipeId>, joined: map<RecipeId, seq<SL.Item>>, k: SL.Key)
    requires Distinct(ids) && forall i :: 0 <= i < |ids| ==> ids[i] in joined
    ensures cart * Elements(ids) <= joined.Keys
    ensures SL.Total(Gather(ids, cart, joined), k) == RecipesTotal(cart * Elements(ids), joined, k)
  {
    forall x | x in Elements(ids) ensures x in joined {
      var i :| 0 <= i < |ids| && ids[i] == x;
    }
    if ids == [] {
      assert cart * Elements(ids) == {};
    } else {
      var here := if ids[0] in cart then joined[ids[0]] else [];
      var tail := ids[1..];
      TailDistinct(ids);
      GatherTotal(tail, cart, joined, k);
      SL.TotalAppend(here, Gather(tail, cart, joined), k);
      assert Elements(ids) == {ids[0]} + Elements(tail);
      var both := cart * Elements(ids);
      if ids[0] in cart {
        RecipesTotalRemove(both, joined, k, ids[0]);
        assert both - {ids[0]} == cart * Elements(tail);
      } else {
        assert both == cart * Elements(tail);
      }
    }
  }

  lemma {:induction false} ItemKeysAppend(a: seq<SL.Item>, b: seq<SL.Item>)
    ensures SL.ItemKeys(a + b) == SL.ItemKeys(a) + SL.ItemKeys(b)
  {
    var ab := SL.ItemKeys(a + b);
    assert |ab| == |a| + |b|;
    forall i | 0 <= i < |a| + |b| ensures ab[i] == (SL.ItemKeys(a) + SL.ItemKeys(b))[i] {
      if i < |a| { assert (a + b)[i] == a[i]; } else { assert (a + b)[i] == b[i - |a|]; }
    }
  }

  lemma NewestFirstSameDates(s: seq<RecipeId>, before: map<RecipeId, Recipe>, after: map<RecipeId, Recipe>)
    requires NewestFirst(s, before)
    requires before.Keys == after.Keys
    requires forall x :: x in before ==> before[x].pubDate == after[x].pubDate
    ensures NewestFirst(s, after)
  {
  }

  // -----------------------------------------------------------------
  // The store's invariants, stated on values

  /** Every recipe's id is below the id counter, its author exists, its
      cooking time is at least 1 and it has at least one existing tag. */
  ghost predicate RecipesOk(recipes: map<RecipeId, Recipe>, nextRecipe: nat, users: set<UserId>, tagIds: set<TagId>) {
    forall r :: r in recipes ==>
      && r < nextRecipe
      && recipes[r].author in users
      && ValidRecipe(recipes[r])
      && recipes[r].tags != {}
      && recipes[r].tags <= tagIds
  }

  /** One recipe's `RecipeIngredient` rows: one per ingredient, amounts at
      least 1, existing ingredients. */
  ghost predicate RowsConform(rs: seq<Row>, ingredientIds: set<IngredientId>) {
    && UniqueIngredientRows(rs)
    && RowAmountsPositive(rs)
    && forall i :: 0 <= i < |rs| ==> rs[i].ingredient in ingredientIds
  }

  /** Rows exist exactly for the existing recipes. */
  ghost predicate RowsOk(rows: map<RecipeId, seq<Row>>, recipeIds: set<RecipeId>, ingredientIds: set<IngredientId>) {
    rows.Keys == recipeIds && forall r :: r in rows ==> RowsConform(rows[r], ingredientIds)
  }

  /** Every user owns exactly one list row, and it holds existing recipes. */
  ghost predicate ListsOk(lists: map<UserId, set<RecipeId>>, users: set<UserId>, recipeIds: set<RecipeId>) {
    lists.Keys == users && forall u :: u in lists ==> lists[u] <= recipeIds
  }

  /** The listing holds every recipe once, newest first. */
  ghost predicate OrderOk(order: seq<RecipeId>, recipes: map<RecipeId, Recipe>) {
    Distinct(order) && Elements(order) == recipes.Keys && NewestFirst(order, recipes)
  }

  /** Subscriptions join existing users and nobody follows themself. */
  ghost predicate SubscriptionsOk(subscriptions: set<(UserId, UserId)>, users: set<UserId>) {
    forall p :: p in subscriptions ==> p.0 in users && p.1 in users && p.0 != p.1
  }

  /** The mutable tables of the store, as one value. */
  datatype Tables = Tables(
    users: set<UserId>,
    nextUser: nat,
    recipes: map<RecipeId, Recipe>,
    nextRecipe: nat,
    order: seq<RecipeId>,
    rows: map<RecipeId, seq<Row>>,
    favorites: map<UserId, set<RecipeId>>,
    carts: map<UserId, set<RecipeId>>,
    subscriptions: set<(UserId, UserId)>)

  /** The integrity rules of the schema, over the tables. */
  ghost predicate TablesOk(t: Tables, ingredientIds: set<IngredientId>, tagIds: set<TagId>) {
    && (forall u :: u in t.users ==> u < t.nextUser)
    && RecipesOk(t.recipes, t.nextRecipe, t.users, tagIds)
    && RowsOk(t.rows, t.recipes.Keys, ingredientIds)
    && ListsOk(t.favorites, t.users, t.recipes.Keys)
    && ListsOk(t.carts, t.users, t.recipes.Keys)
    && SubscriptionsOk(t.subscriptions, t.users)
    && OrderOk(t.order, t.recipes)
  }

  lemma RecipesOkInsert(recipes: map<RecipeId, Recipe>, nextRecipe: nat, users: set<UserId>, tagIds: set<TagId>, r: Recipe)
    requires RecipesOk(recipes, nextRecipe, users, tagIds)
    requires r.author in users && ValidRecipe(r) && r.tags != {} && r.tags <= tagIds
    ensures RecipesOk(recipes[nextRecipe := r], nextRecipe + 1, users, tagIds)
  {
  }

  lemma RecipesOkReplace(recipes: map<RecipeId, Recipe>, nextRecipe: nat, users: set<UserId>, tagIds: set<TagId>, id: RecipeId, r: Recipe)
    requires RecipesOk(recipes, nextRecipe, users, tagIds) && id in recipes
    requires r.author in users && ValidRecipe(r) && r.tags != {} && r.tags <= tagIds
    ensures RecipesOk(recipes[id := r], nextRecipe, users, tagIds)
  {
  }

  lemma RecipesOkRemove(recipes: map<RecipeId, Recipe>, nextRecipe: nat, users: set<UserId>, tagIds: set<TagId>,
                        gone: set<RecipeId>, remaining: set<UserId>)
    requires RecipesOk(recipes, nextRecipe, users, tagIds)
    requires forall r :: r in recipes && r !in gone ==> recipes[r].author in remaining
    ensures RecipesOk(recipes - gone, nextRecipe, remaining, tagIds)
  {
  }

  lemma RowsOkSet(rows: map<RecipeId, seq<Row>>, recipeIds: set<RecipeId>, ingredientIds: set<IngredientId>, id: RecipeId, rs: seq<Row>)
    requires RowsOk(rows, recipeIds, ingredientIds) && RowsConform(rs, ingredientIds)
    ensures RowsOk(rows[id := rs], recipeIds + {id}, ingredientIds)
  {
  }

  lemma RowsOkRemove(rows: map<RecipeId, seq<Row>>, recipeIds: set<RecipeId>, ingredientIds: set<IngredientId>, gone: set<RecipeId>)
    requires RowsOk(rows, recipeIds, ingredientIds)
    ensures RowsOk(rows - gone, recipeIds - gone, ingredientIds)
  {
  }

  lemma ListsOkGrow(lists: map<UserId, set<RecipeId>>, users: set<UserId>, recipeIds: set<RecipeId>, more: set<RecipeId>)
    requires ListsOk(lists, users, recipeIds) && recipeIds <= more
    ensures ListsOk(lists, users, more)
  {
  }

  lemma ListsOkRemove(lists: map<UserId, set<RecipeId>>, users: set<UserId>, recipeIds: set<RecipeId>,
                      leaving: set<UserId>, gone: set<RecipeId>)
    requires ListsOk(lists, users, recipeIds)
    ensures ListsOk(RemoveRecipes(lists - leaving, gone), users - leaving, recipeIds - gone)
  {
  }

  lemma {:induction false} OrderOkInsert(order: seq<RecipeId>, recipes: map<RecipeId, Recipe>, id: RecipeId, r: Recipe)
    requires OrderOk(order, recipes) && id !in recipes
    ensures OrderOk(InsertNewest(order, id, recipes[id := r]), recipes[id := r])
  {
    var rs := recipes[id := r];
    assert forall i :: 0 <= i < |order| ==> order[i] in Elements(order);
    assert NewestFirst(order, rs);
    var r' := InsertNewest(order, id, rs);
    assert Elements(r') == rs.Keys;
  }

  lemma {:induction false} OrderOkRemove(order: seq<RecipeId>, recipes: map<RecipeId, Recipe>, gone: set<RecipeId>)
    requires OrderOk(order, recipes)
    ensures OrderOk(Keep(order, recipes.Keys - gone), recipes - gone)
  {
    var kept := Keep(order, recipes.Keys - gone);
    KeepNewestFirst(order, recipes.Keys - gone, recipes);
    NewestFirstSubmap(kept, recipes, recipes - gone);
    assert Elements(kept) == (recipes - gone).Keys;
  }

  lemma OrderOkReplace(order: seq<RecipeId>, recipes: map<RecipeId, Recipe>, id: RecipeId, r: Recipe)
    requires OrderOk(order, recipes) && id in recipes && r.pubDate == recipes[id].pubDate
    ensures OrderOk(order, recipes[id := r])
  {
    NewestFirstSameDates(order, recipes, recipes[id := r]);
  }

  /** The subscriptions left once `u` is deleted: those neither from nor
      to `u`. */
  function Unfollow(subscriptions: set<(UserId, UserId)>, u: UserId): (r: set<(UserId, UserId)>)
    ensures forall p :: p in r <==> p in subscriptions && p.0 != u && p.1 != u
  {
    set p | p in subscriptions && p.0 != u && p.1 != u
  }

  /** The tables after registering a user under the next id, with the
      empty favourites and cart rows the receivers create. */
  function AfterCreateUser(t: Tables): Tables {
    Tables(t.users + {t.nextUser}, t.nextUser + 1, t.recipes, t.nextRecipe, t.order, t.rows,
           t.favorites[t.nextUser := {}], t.carts[t.nextUser := {}], t.subscriptions)
  }

  /** The tables after one user's favourites or cart row becomes `s`. */
  function AfterSetList(t: Tables, kind: ListKind, u: UserId, s: set<RecipeId>): Tables {
    if kind == Favorites
    then Tables(t.users, t.nextUser, t.recipes, t.nextRecipe, t.order, t.rows, t.favorites[u := s], t.carts, t.subscriptions)
    else Tables(t.users, t.nextUser, t.recipes, t.nextRecipe, t.order, t.rows, t.favorites, t.carts[u := s], t.subscriptions)
  }

  /** The tables after inserting recipe `r` under the next id, with rows
      `rs`. */
  function AfterInsertRecipe(t: Tables, r: Recipe, rs: seq<Row>): Tables
    requires forall i :: 0 <= i < |t.order| ==> t.order[i] in t.recipes
  {
    Tables(t.users, t.nextUser, t.recipes[t.nextRecipe := r], t.nextRecipe + 1,
           InsertNewest(t.order, t.nextRecipe, t.recipes[t.nextRecipe := r]), t.rows[t.nextRecipe := rs],
           t.favorites, t.carts, t.subscriptions)
  }

  /** The tables after recipe `id` gets the fields of `r` and the rows `rs`. */
  function AfterReplaceRecipe(t: Tables, id: RecipeId, r: Recipe, rs: seq<Row>): Tables {
    Tables(t.users, t.nextUser, t.recipes[id := r], t.nextRecipe, t.order, t.rows[id := rs],
           t.favorites, t.carts, t.subscriptions)
  }

  /** The tables after deleting recipe `id` and what cascades from it. */
  function AfterRemoveRecipe(t: Tables, id: RecipeId): Tables {
    Tables(t.users, t.nextUser, t.recipes - {id}, t.nextRecipe, Keep(t.order, t.recipes.Keys - {id}),
           t.rows - {id}, RemoveRecipes(t.favorites, {id}), RemoveRecipes(t.carts, {id}), t.subscriptions)
  }

  /** The tables after deleting user `u` and what cascades from it. */
  function AfterDeleteUser(t: Tables, u: UserId): Tables {
    var gone := RecipesBy(t.recipes, u);
    Tables(t.users - {u}, t.nextUser, t.recipes - gone, t.nextRecipe, Keep(t.order, t.recipes.Keys - gone),
           t.rows - gone, RemoveRecipes(t.favorites - {u}, gone), RemoveRecipes(t.carts - {u}, gone),
           Unfollow(t.subscriptions, u))
  }

  /** Deleting the recipe just created restores every table; only the id
      counter has moved on. `TablesOk` gives the premises. */
  lemma {:induction false} RemoveUndoesInsert(t: Tables, r: Recipe, rs: seq<Row>)
    requires t.nextRecipe !in t.recipes && t.rows.Keys == t.recipes.Keys && Elements(t.order) == t.recipes.Keys
    requires forall u :: u in t.favorites ==> t.favorites[u] <= t.recipes.Keys
    requires forall u :: u in t.carts ==> t.carts[u] <= t.recipes.Keys
    ensures forall i :: 0 <= i < |t.order| ==> t.order[i] in t.recipes
    ensures AfterRemoveRecipe(AfterInsertRecipe(t, r, rs), t.nextRecipe)
      == Tables(t.users, t.nextUser, t.recipes, t.nextRecipe + 1, t.order, t.rows, t.favorites, t.carts, t.subscriptions)
  {
    var id := t.nextRecipe;
    assert forall i :: 0 <= i < |t.order| ==> t.order[i] in Elements(t.order);
    var t1 := AfterInsertRecipe(t, r, rs);
    var t2 := AfterRemoveRecipe(t1, id);
    assert t2.recipes == t.recipes by {
      RemoveUndoesUpdate(t.recipes, id, r);
    }
    assert t2.rows == t.rows by {
      RemoveUndoesUpdate(t.rows, id, rs);
    }
    assert t2.order == t.order by {
      assert t1.recipes.Keys - {id} == t.recipes.Keys;
      KeepUndoesInsert(t.order, id, t1.recipes, t.recipes.Keys);
      KeepEverything(t.order, t.recipes.Keys);
    }
    assert t2.favorites == t.favorites by {
      RemoveAbsentRecipes(t.favorites, t.recipes.Keys, {id});
    }
    assert t2.carts == t.carts by {
      RemoveAbsentRecipes(t.carts, t.recipes.Keys, {id});
    }
  }

  lemma RemoveUndoesUpdate<K, V>(m: map<K, V>, k: K, v: V)
    requires k !in m
    ensures m[k := v] - {k} == m
  {
  }

  /** Removing recipes no list holds changes no list. */
  lemma RemoveAbsentRecipes(lists: map<UserId, set<RecipeId>>, recipeIds: set<RecipeId>, gone: set<RecipeId>)
    requires (forall u :: u in lists ==> lists[u] <= recipeIds) && recipeIds !! gone
    ensures RemoveRecipes(lists, gone) == lists
  {
    var r := RemoveRecipes(lists, gone);
    forall u | u in lists ensures r[u] == lists[u] {
      assert lists[u] - gone == lists[u];
    }
  }

  /** Registering a user under the next id, with an empty favourites row
      and an empty cart row, keeps the integrity rules. */
  lemma CreateUserKeepsTablesOk(t: Tables, ingredientIds: set<IngredientId>, tagIds: set<TagId>) returns (t': Tables)
    requires TablesOk(t, ingredientIds, tagIds)
    ensures t.nextUser !in t.users && t.nextUser !in t.favorites && t.nextUser !in t.carts
    ensures t' == AfterCreateUser(t)
    ensures TablesOk(t', ingredientIds, tagIds)
  {
    t' := AfterCreateUser(t);
  }

  /** Giving one user's favourites or cart row another set of existing
      recipes keeps the integrity rules. */
  lemma SetListKeepsTablesOk(t: Tables, ingredientIds: set<IngredientId>, tagIds: set<TagId>,
                             kind: ListKind, u: UserId, s: set<RecipeId>) returns (t': Tables)
    requires TablesOk(t, ingredientIds, tagIds) && u in t.users && s <= t.recipes.Keys
    ensures t' == AfterSetList(t, kind, u, s)
    ensures TablesOk(t', ingredientIds, tagIds)
  {
    t' := AfterSetList(t, kind, u, s);
  }

  /** Inserting a recipe with conforming rows keeps the integrity rules. */
  lemma CreateRecipeKeepsTablesOk(t: Tables, ingredientIds: set<IngredientId>, tagIds: set<TagId>, r: Recipe, rs: seq<Row>)
    returns (t': Tables)
    requires TablesOk(t, ingredientIds, tagIds)
    requires r.author in t.users && ValidRecipe(r) && r.tags != {} && r.tags <= tagIds
    requires RowsConform(rs, ingredientIds)
    ensures t.nextRecipe !in t.recipes
    ensures forall i :: 0 <= i < |t.order| ==> t.order[i] in t.recipes && t.order[i] in t.recipes[t.nextRecipe := r]
    ensures t' == AfterInsertRecipe(t, r, rs)
    ensures TablesOk(t', ingredientIds, tagIds)
  {
    var id := t.nextRecipe;
    var recipes := t.recipes[id := r];
    assert forall i :: 0 <= i < |t.order| ==> t.order[i] in Elements(t.order);
    t' := AfterInsertRecipe(t, r, rs);
    assert RecipesOk(recipes, id + 1, t.users, tagIds) by {
      RecipesOkInsert(t.recipes, id, t.users, tagIds, r);
    }
    assert RowsOk(t'.rows, recipes.Keys, ingredientIds) by {
      RowsOkSet(t.rows, t.recipes.Keys, ingredientIds, id, rs);
    }
    assert ListsOk(t.favorites, t.users, recipes.Keys) && ListsOk(t.carts, t.users, recipes.Keys) by {
      ListsOkGrow(t.favorites, t.users, t.recipes.Keys, recipes.Keys);
      ListsOkGrow(t.carts, t.users, t.recipes.Keys, recipes.Keys);
    }
    assert OrderOk(t'.order, recipes) by {
      OrderOkInsert(t.order, t.recipes, id, r);
    }
  }

  /** Replacing a recipe's fields (same author and date) and its rows keeps
      the integrity rules. */
  lemma UpdateRecipeKeepsTablesOk(t: Tables, ingredientIds: set<IngredientId>, tagIds: set<TagId>, id: RecipeId, r: Recipe, rs: seq<Row>)
    returns (t': Tables)
    requires TablesOk(t, ingredientIds, tagIds) && id in t.recipes
    requires r.author == t.recipes[id].author && r.pubDate == t.recipes[id].pubDate
    requires ValidRecipe(r) && r.tags != {} && r.tags <= tagIds
    requires RowsConform(rs, ingredientIds)
    ensures t' == AfterReplaceRecipe(t, id, r, rs)
    ensures TablesOk(t', ingredientIds, tagIds)
  {
    var recipes := t.recipes[id := r];
    t' := AfterReplaceRecipe(t, id, r, rs);
    assert RecipesOk(recipes, t.nextRecipe, t.users, tagIds) by {
      RecipesOkReplace(t.recipes, t.nextRecipe, t.users, tagIds, id, r);
    }
    assert RowsOk(t'.rows, recipes.Keys, ingredientIds) by {
      RowsOkSet(t.rows, t.recipes.Keys, ingredientIds, id, rs);
      assert t.recipes.Keys + {id} == recipes.Keys;
    }
    assert recipes.Keys == t.recipes.Keys;
    assert OrderOk(t.order, recipes) by {
      OrderOkReplace(t.order, t.recipes, id, r);
    }
  }

  /** Deleting a recipe with its rows and its list entries keeps the
      integrity rules. */
  lemma DeleteRecipeKeepsTablesOk(t: Tables, ingredientIds: set<IngredientId>, tagIds: set<TagId>, id: RecipeId)
    returns (t': Tables)
    requires TablesOk(t, ingredientIds, tagIds)
    ensures t' == AfterRemoveRecipe(t, id)
    ensures TablesOk(t', ingredientIds, tagIds)
  {
    t' := AfterRemoveRecipe(t, id);
    assert RecipesOk(t'.recipes, t.nextRecipe, t.users, tagIds) by {
      RecipesOkRemove(t.recipes, t.nextRecipe, t.users, tagIds, {id}, t.users);
    }
    assert RowsOk(t'.rows, t'.recipes.Keys, ingredientIds) by {
      RowsOkRemove(t.rows, t.recipes.Keys, ingredientIds, {id});
    }
    assert ListsOk(t'.favorites, t.users, t'.recipes.Keys) && ListsOk(t'.carts, t.users, t'.recipes.Keys) by {
      ListsOkRemove(t.favorites, t.users, t.recipes.Keys, {}, {id});
      ListsOkRemove(t.carts, t.users, t.recipes.Keys, {}, {id});
      assert t.favorites - {} == t.favorites && t.carts - {} == t.carts && t.users - {} == t.users;
    }
    assert OrderOk(t'.order, t'.recipes) by {
      OrderOkRemove(t.order, t.recipes, {id});
    }
  }

  /** Deleting a user with everything that cascades from it keeps the
      integrity rules. */
  lemma DeleteUserKeepsTablesOk(t: Tables, ingredientIds: set<IngredientId>, tagIds: set<TagId>, u: UserId)
    returns (t': Tables)
    requires TablesOk(t, ingredientIds, tagIds)
    ensures t' == AfterDeleteUser(t, u)
    ensures TablesOk(t', ingredientIds, tagIds)
  {
    var gone := RecipesBy(t.recipes, u);
    t' := AfterDeleteUser(t, u);
    assert RecipesOk(t'.recipes, t.nextRecipe, t'.users, tagIds) by {
      RecipesOkRemove(t.recipes, t.nextRecipe, t.users, tagIds, gone, t.users - {u});
    }
    assert RowsOk(t'.rows, t'.recipes.Keys, ingredientIds) by {
      RowsOkRemove(t.rows, t.recipes.Keys, ingredientIds, gone);
    }
    assert ListsOk(t'.favorites, t'.users, t'.recipes.Keys) && ListsOk(t'.carts, t'.users, t'.recipes.Keys) by {
      ListsOkRemove(t.favorites, t.users, t.recipes.Keys, {u}, gone);
      ListsOkRemove(t.carts, t.users, t.recipes.Keys, {u}, gone);
    }
    assert OrderOk(t'.order, t'.recipes) by {
      OrderOkRemove(t.order, t.recipes, gone);
    }
  }

  /** The `Exists(... OuterRef('pk'))` annotation over one list table: true
      exactly when the requester is authenticated and its row holds the
      recipe. */
  function InList(list: map<UserId, set<RecipeId>>, viewer: Option<UserId>, id: RecipeId): (b: bool)
    ensures b <==> viewer.Some? && viewer.value in list && id in list[viewer.value]
  {
    match viewer
    case None => false
    case Some(u) => u in list && id in list[u]
  }

  /** The recipes of `order` with the requester's two flags. */
  function Annotate(order: seq<RecipeId>, recipes: map<RecipeId, Recipe>, favorites: map<UserId, set<RecipeId>>,
                    carts: map<UserId, set<RecipeId>>, viewer: Option<UserId>): (vs: seq<RecipeView>)
    requires forall i :: 0 <= i < |order| ==> order[i] in recipes
    ensures |vs| == |order|
    ensures forall i :: 0 <= i < |order| ==>
      && vs[i].id == order[i] && vs[i].recipe == recipes[order[i]]
      && (vs[i].isFavorited <==> viewer.Some? && viewer.value in favorites && order[i] in favorites[viewer.value])
      && (vs[i].isInShoppingCart <==> viewer.Some? && viewer.value in carts && order[i] in carts[viewer.value])
  {
    seq(|order|, i requires 0 <= i < |order| =>
      RecipeView(order[i], recipes[order[i]], InList(favorites, viewer, order[i]), InList(carts, viewer, order[i])))
  }

  /** `ObjectRecipeSerializer` over a list of recipes. */
  function Summaries(ids: seq<RecipeId>, recipes: map<RecipeId, Recipe>): (r: seq<RecipeSummary>)
    requires forall i :: 0 <= i < |ids| ==> ids[i] in recipes
    ensures |r| == |ids|
    ensures forall i :: 0 <= i < |ids| ==>
      r[i] == RecipeSummary(ids[i], recipes[ids[i]].name, recipes[ids[i]].cookingTime)
  {
    if ids == [] then []
    else [RecipeSummary(ids[0], recipes[ids[0]].name, recipes[ids[0]].cookingTime)] + Summaries(ids[1..], recipes)
  }

  /** The author view over the author's recipes `all`, newest first. */
  function AuthorViewFrom(viewer: Option<UserId>, author: UserId, all: seq<RecipeId>, recipes: map<RecipeId, Recipe>,
                          subscriptions: set<(UserId, UserId)>, recipesLimit: Option<string>): (v: AuthorView)
    requires forall i :: 0 <= i < |all| ==> all[i] in recipes && recipes[all[i]].author == author
    ensures v.id == author && v.recipesCount == |all|
    ensures v.isSubscribed == GetIsSubscribed(viewer, author, subscriptions)
    ensures |v.recipes| == |GetRecipes(all, recipesLimit)|
    ensures forall i :: 0 <= i < |v.recipes| ==>
      v.recipes[i] == RecipeSummary(all[i], recipes[all[i]].name, recipes[all[i]].cookingTime)
  {
    var shown := GetRecipes(all, recipesLimit);
    assert forall i :: 0 <= i < |shown| ==> shown[i] == all[i];
    AuthorView(author, GetIsSubscribed(viewer, author, subscriptions), Summaries(shown, recipes), |all|)
  }

  /** The gate of the favourite and shopping-cart views as written: they
      allow any requester, so the recipe lookup answers 404 first, and an
      anonymous requester then fails on reading its list row, a server
      error. An authenticated requester passes exactly when the recipe
      exists. */
  function ListGateAsWritten(requester: Option<UserId>, recipe: RecipeId, recipeIds: set<RecipeId>): (r: Result<UserId, Status>)
    ensures r.Ok? <==> requester.Some? && recipe in recipeIds
    ensures r.Ok? ==> r.value == requester.value
    ensures recipe !in recipeIds ==> r == Err(NotFound404)
    ensures requester.None? && recipe in recipeIds ==> r == Err(ServerError500)
  {
    if recipe !in recipeIds then Err(NotFound404)
    else if requester.None? then Err(ServerError500)
    else Ok(requester.value)
  }

  /** The gate the views evidently intend (the same views' siblings demand
      an authenticated requester): an anonymous requester is refused with
      401 before anything is looked up; for an authenticated requester it
      is the gate as written. */
  function ListGate(requester: Option<UserId>, recipe: RecipeId, recipeIds: set<RecipeId>): (r: Result<UserId, Status>)
    ensures requester.None? ==> r == Err(Unauthorized401)
    ensures requester.Some? ==> r == ListGateAsWritten(requester, recipe, recipeIds)
    ensures r.Ok? <==> requester.Some? && recipe in recipeIds
    ensures r.Ok? ==> r.value == requester.value
  {
    if requester.None? then Err(Unauthorized401)
    else if recipe !in recipeIds then Err(NotFound404)
    else Ok(requester.value)
  }

  /** An anonymous request for an existing recipe gets a server error from
      the gate as written, never the 401 an anonymous request should get. */
  lemma AnonymousListRequestFails(recipe: RecipeId, recipeIds: set<RecipeId>)
    requires recipe in recipeIds
    ensures ListGateAsWritten(None, recipe, recipeIds) == Err(ServerError500)
    ensures ListGate(None, recipe, recipeIds) == Err(Unauthorized401)
  {
  }

  class Store {
    /** Reference data: ingredients and tags. */
    const ingredients: map<IngredientId, Ingredient>
    const tags: map<TagId, Tag>

    var users: set<UserId>
    var nextUser: nat
    var recipes: map<RecipeId, Recipe>
    var nextRecipe: nat
    /** Every recipe, newest first (the recipes' default ordering). */
    var order: seq<RecipeId>
    /** The `RecipeIngredient` rows of each recipe, in insertion order. */
    var rows: map<RecipeId, seq<Row>>
    /** Each user's single favourites row and its set of recipes. */
    var favorites: map<UserId, set<RecipeId>>
    /** Each user's single shopping-cart row and its set of recipes. */
    var carts: map<UserId, set<RecipeId>>
    /** `Subscribe` rows as (follower, author) pairs. */
    var subscriptions: set<(UserId, UserId)>

    /** Every tag passes its field checks and slugs are unique. */
    ghost predicate TagsValid() {
      (forall t :: t in tags ==> ValidTag(tags[t])) && UniqueSlugs(tags)
    }

    ghost function Snapshot(): Tables
      reads this
    {
      Tables(users, nextUser, recipes, nextRecipe, order, rows, favorites, carts, subscriptions)
    }

    ghost predicate Valid()
      reads this
    {
      TagsValid() && TablesOk(Snapshot(), ingredients.Keys, tags.Keys)
    }

    constructor (ingredients: map<IngredientId, Ingredient>, tags: map<TagId, Tag>)
      requires forall t :: t in tags ==> ValidTag(tags[t])
      requires UniqueSlugs(tags)
      ensures Valid()
      ensures this.ingredients == ingredients && this.tags == tags
      ensures users == {} && recipes == map[] && rows == map[] && order == []
      ensures favorites == map[] && carts == map[] && subscriptions == {}
    {
      this.ingredients := ingredients;
      this.tags := tags;
      users, nextUser := {}, 0;
      recipes, nextRecipe := map[], 0;
      order := [];
      rows := map[];
      favorites, carts := map[], map[];
      subscriptions := {};
    }

    function List(kind: ListKind): map<UserId, set<RecipeId>>
      reads this
    {
      if kind == Favorites then favorites else carts
    }

    // ---------------------------------------------------------------
    // Users

    /** The `post_save` receivers for users: a newly created user gets one
        empty favourites row and one empty cart row; saving an existing user
        creates nothing. */
    method PostSave(u: UserId, created: bool)
      requires created ==> u !in favorites && u !in carts
      modifies this`favorites, this`carts
      ensures created ==> favorites == old(favorites)[u := {}] && carts == old(carts)[u := {}]
      ensures !created ==> favorites == old(favorites) && carts == old(carts)
    {
      if created {
        favorites := favorites[u := {}];
        carts := carts[u := {}];
      }
    }

    /** Inserting a user row, then the receivers. */
    method CreateUser() returns (u: UserId)
      requires Valid()
      modifies this
      ensures Valid()
      ensures u == old(nextUser) && u !in old(users)
      ensures nextUser == old(nextUser) + 1
      ensures users == old(users) + {u}
      ensures favorites == old(favorites)[u := {}] && carts == old(carts)[u := {}]
      ensures recipes == old(recipes) && rows == old(rows) && order == old(order) && nextRecipe == old(nextRecipe)
      ensures subscriptions == old(subscriptions)
    {
      ghost var after := CreateUserKeepsTablesOk(Snapshot(), ingredients.Keys, tags.Keys);
      u := nextUser;
      nextUser := nextUser + 1;
      users := users + {u};
      PostSave(u, true);
      assert Snapshot() == after;
    }

    /** Deleting a user deletes their recipes (with those recipes' rows and
        list entries), their own list rows and their subscriptions. */
    method DeleteUser(u: UserId)
      requires Valid() && u in users
      modifies this
      ensures Valid()
      ensures users == old(users) - {u}
      ensures recipes == old(recipes) - RecipesBy(old(recipes), u)
      ensures rows == old(rows) - RecipesBy(old(recipes), u)
      ensures order == Keep(old(order), old(recipes).Keys - RecipesBy(old(recipes), u))
      ensures favorites == RemoveRecipes(old(favorites) - {u}, RecipesBy(old(recipes), u))
      ensures carts == RemoveRecipes(old(carts) - {u}, RecipesBy(old(recipes), u))
      ensures subscriptions == Unfollow(old(subscriptions), u)
      ensures nextUser == old(nextUser) && nextRecipe == old(nextRecipe)
    {
      var gone := RecipesBy(recipes, u);
      ghost var after := DeleteUserKeepsTablesOk(Snapshot(), ingredients.Keys, tags.Keys, u);
      order := Keep(order, recipes.Keys - gone);
      recipes := recipes - gone;
      rows := rows - gone;
      favorites := RemoveRecipes(favorites - {u}, gone);
      carts := RemoveRecipes(carts - {u}, gone);
      subscriptions := Unfollow(subscriptions, u);
      users := users - {u};
      assert Snapshot() == after;
    }

    // ---------------------------------------------------------------
    // Subscriptions

    /** `AddAndDeleteSubscribe.create`: 404 for an unknown user, then 400
        for oneself, then 400 for an existing subscription; otherwise the one
        pair is added and the answer says subscribed, with the author's
        recipe count. */
    method Subscribe(requester: UserId, target: UserId) returns (status: Status, answer: Option<SubscriptionAnswer>)
      requires Valid() && requester in users
      modifies this`subscriptions
      ensures Valid()
      ensures target !in users ==> status == NotFound404
      ensures target in users && target == requester ==> status == BadRequest400
      ensures target in users && target != requester && (requester, target) in old(subscriptions) ==>
        status == BadRequest400
      ensures status == Created201 <==>
        target in users && target != requester && (requester, target) !in old(subscriptions)
      ensures status == Created201 ==>
        && subscriptions == old(subscriptions) + {(requester, target)}
        && answer == Some(SubscriptionAnswer(GetRecipesCount(recipes, target), true))
      ensures status != Created201 ==> subscriptions == old(subscriptions) && answer == None
    {
      if target !in users {
        return NotFound404, None;
      }
      if requester == target {
        return BadRequest400, None;
      }
      if (requester, target) in subscriptions {
        return BadRequest400, None;
      }
      subscriptions := subscriptions + {(requester, target)};
      status := Created201;
      answer := Some(SubscriptionAnswer(|RecipesBy(recipes, target)|, true));
    }

    /** `AddAndDeleteSubscribe.create` as written: it serializes the new
        `Subscribe` row instead of the author, so where `Subscribe` answers
        201 this one stores the same pair and then answers with a server
        error; the other answers are those of `Subscribe`. */
    method SubscribeAsWritten(requester: UserId, target: UserId) returns (status: Status)
      requires Valid() && requester in users
      modifies this`subscriptions
      ensures Valid()
      ensures target !in users ==> status == NotFound404
      ensures target in users && target == requester ==> status == BadRequest400
      ensures target in users && target != requester && (requester, target) in old(subscriptions) ==>
        status == BadRequest400
      ensures status == ServerError500 <==>
        target in users && target != requester && (requester, target) !in old(subscriptions)
      ensures status == ServerError500 ==> subscriptions == old(subscriptions) + {(requester, target)}
      ensures status != ServerError500 ==> subscriptions == old(subscriptions)
      ensures status != Created201
    {
      var answer;
      status, answer := Subscribe(requester, target);
      if status == Created201 {
        SubscribeSerializerOn(SubscribeInstance(requester, target));
        var data := ToRepresentation(SubscribeFields, SubscribeInstance(requester, target));
        status := data.error;
      }
    }

    /** `AddAndDeleteSubscribe.perform_destroy`, after the user lookup: 403
        for oneself, 404 for a missing subscription, otherwise exactly that
        pair is deleted. */
    method Unsubscribe(requester: UserId, target: UserId) returns (status: Status)
      requires Valid() && requester in users
      modifies this`subscriptions
      ensures Valid()
      ensures target !in users ==> status == NotFound404
      ensures target in users && target == requester ==> status == Forbidden403
      ensures target in users && target != requester && (requester, target) !in old(subscriptions) ==>
        status == NotFound404
      ensures status == NoContent204 <==>
        target in users && target != requester && (requester, target) in old(subscriptions)
      ensures status == NoContent204 ==> subscriptions == old(subscriptions) - {(requester, target)}
      ensures status != NoContent204 ==> subscriptions == old(subscriptions)
    {
      if target !in users {
        return NotFound404;
      }
      if requester == target {
        return Forbidden403;
      }
      if (requester, target) !in subscriptions {
        return NotFound404;
      }
      subscriptions := subscriptions - {(requester, target)};
      status := NoContent204;
    }

    // ---------------------------------------------------------------
    // Favourites and shopping cart

    /** `AddDeleteFavoriteRecipe.create` / `AddDeleteShoppingCart.create`,
        behind `ListGate`: 401 for an anonymous requester, 404 for an unknown
        recipe, 400 when it is already in the list, otherwise the list gains
        exactly that recipe. */
    method AddToList(kind: ListKind, requester: Option<UserId>, recipe: RecipeId) returns (status: Status)
      requires Valid() && (requester.Some? ==> requester.value in users)
      modifies this`favorites, this`carts
      ensures Valid()
      ensures requester.None? ==> status == Unauthorized401
      ensures requester.Some? && recipe !in recipes ==> status == NotFound404
      ensures requester.Some? && recipe in recipes && recipe in old(List(kind))[requester.value] ==>
        status == BadRequest400
      ensures status == Created201 <==>
        requester.Some? && recipe in recipes && recipe !in old(List(kind))[requester.value]
      ensures status == Created201 ==>
        List(kind) == old(List(kind))[requester.value := old(List(kind))[requester.value] + {recipe}]
      ensures status != Created201 ==> List(kind) == old(List(kind))
      ensures List(Other(kind)) == old(List(Other(kind)))
    {
      var gate := ListGate(requester, recipe, recipes.Keys);
      if gate.Err? {
        return gate.error;
      }
      var u := gate.value;
      if recipe in List(kind)[u] {
        return BadRequest400;
      }
      SetList(kind, u, List(kind)[u] + {recipe});
      status := Created201;
    }

    /** `perform_destroy` of the same views, behind `ListGate`: 401 for an
        anonymous requester, 404 for an unknown recipe, the recipe removed
        when present, 400 (never a silent success) when absent. */
    method RemoveFromList(kind: ListKind, requester: Option<UserId>, recipe: RecipeId) returns (status: Status)
      requires Valid() && (requester.Some? ==> requester.value in users)
      modifies this`favorites, this`carts
      ensures Valid()
      ensures requester.None? ==> status == Unauthorized401
      ensures requester.Some? && recipe !in recipes ==> status == NotFound404
      ensures requester.Some? && recipe in recipes && recipe !in old(List(kind))[requester.value] ==>
        status == BadRequest400
      ensures status == NoContent204 <==>
        requester.Some? && recipe in recipes && recipe in old(List(kind))[requester.value]
      ensures status == NoContent204 ==>
        List(kind) == old(List(kind))[requester.value := old(List(kind))[requester.value] - {recipe}]
      ensures status != NoContent204 ==> List(kind) == old(List(kind))
      ensures List(Other(kind)) == old(List(Other(kind)))
    {
      var gate := ListGate(requester, recipe, recipes.Keys);
      if gate.Err? {
        return gate.error;
      }
      var u := gate.value;
      if recipe !in List(kind)[u] {
        return BadRequest400;
      }
      SetList(kind, u, List(kind)[u] - {recipe});
      status := NoContent204;
    }

    /** Writes one user's list row. */
    method SetList(kind: ListKind, u: UserId, s: set<RecipeId>)
      requires Valid() && u in users && s <= recipes.Keys
      modifies this`favorites, this`carts
      ensures Valid()
      ensures List(kind) == old(List(kind))[u := s]
      ensures List(Other(kind)) == old(List(Other(kind)))
    {
      ghost var after := SetListKeepsTablesOk(Snapshot(), ingredients.Keys, tags.Keys, kind, u, s);
      if kind == Favorites {
        favorites := favorites[u := s];
      } else {
        carts := carts[u := s];
      }
      assert Snapshot() == after;
    }

    // ---------------------------------------------------------------
    // Recipes

    /** `is_author_or_admin`: 404 for an unknown recipe, 403 unless the
        requester wrote it. Despite the name, no one else passes. */
    function AuthorGate(requester: UserId, id: RecipeId): (r: Result<Recipe, Status>)
      reads this
      ensures r.Ok? <==> id in recipes && recipes[id].author == requester
      ensures r.Ok? ==> r.value == recipes[id]
      ensures r.Err? ==> r.error == (if id !in recipes then NotFound404 else Forbidden403)
    {
      if id !in recipes then Err(NotFound404)
      else if recipes[id].author != requester then Err(Forbidden403)
      else Ok(recipes[id])
    }

    /** `RecipeWriteSerializer.create` behind the create view: a rejected
        payload answers 400 and writes nothing; otherwise one recipe row
        authored by the requester, with the payload's tags and one
        ingredient row per payload entry. */
    method CreateRecipe(requester: UserId, payload: RecipePayload, now: int)
      returns (status: Status, result: Result<RecipeId, ValidationError>)
      requires Valid() && requester in users
      modifies this`recipes, this`rows, this`order, this`nextRecipe
      ensures Valid()
      ensures IsValid(payload, false, ingredients.Keys, tags.Keys).Err? ==>
        && status == BadRequest400
        && result == Err(IsValid(payload, false, ingredients.Keys, tags.Keys).error)
        && recipes == old(recipes) && rows == old(rows) && order == old(order)
        && nextRecipe == old(nextRecipe)
      ensures IsValid(payload, false, ingredients.Keys, tags.Keys).Ok? ==>
        && status == Created201
        && result == Ok(old(nextRecipe))
        && old(nextRecipe) !in old(recipes)
        && recipes == old(recipes)[old(nextRecipe) := NewRecipe(requester, payload, now)]
        && rows == old(rows)[old(nextRecipe) := RowsOf(payload.ingredients)]
        && order == InsertNewest(old(order), old(nextRecipe), recipes)
        && nextRecipe == old(nextRecipe) + 1
    {
      var checked := IsValid(payload, false, ingredients.Keys, tags.Keys);
      if checked.Err? {
        return BadRequest400, Err(checked.error);
      }
      AcceptedRowsKeepConstraints(payload, false, ingredients.Keys, tags.Keys);
      assert payload.tags[0] in Elements(payload.tags);
      var id := InsertRecipe(NewRecipe(requester, payload, now), RowsOf(payload.ingredients));
      status, result := Created201, Ok(id);
    }

    /** The inserts of `create`: the recipe row under the next id, then its
        ingredient rows. */
    method InsertRecipe(r: Recipe, rs: seq<Row>) returns (id: RecipeId)
      requires Valid()
      requires r.author in users && ValidRecipe(r) && r.tags != {} && r.tags <= tags.Keys
      requires RowsConform(rs, ingredients.Keys)
      modifies this`recipes, this`rows, this`order, this`nextRecipe
      ensures Valid()
      ensures id == old(nextRecipe) && id !in old(recipes)
      ensures recipes == old(recipes)[id := r]
      ensures rows == old(rows)[id := rs]
      ensures order == InsertNewest(old(order), id, recipes)
      ensures nextRecipe == old(nextRecipe) + 1
    {
      ghost var after := CreateRecipeKeepsTablesOk(Snapshot(), ingredients.Keys, tags.Keys, r, rs);
      id := nextRecipe;
      nextRecipe := nextRecipe + 1;
      recipes := recipes[id := r];
      rows := rows[id := rs];
      order := InsertNewest(order, id, recipes);
      assert Snapshot() == after;
    }

    /** `update` / `partial_update`: the author check first, then
        validation, then the recipe's ingredient rows are replaced by exactly
        the payload's (cleared and recreated, not merged) and its tags by the
        payload's tags. No other recipe changes. */
    method UpdateRecipe(requester: UserId, id: RecipeId, payload: RecipePayload, partial: bool)
      returns (status: Status, error: Option<ValidationError>)
      requires Valid() && requester in users
      modifies this`recipes, this`rows
      ensures Valid()
      ensures old(AuthorGate(requester, id)).Err? ==>
        && status == old(AuthorGate(requester, id)).error && error == None
        && recipes == old(recipes) && rows == old(rows)
      ensures old(AuthorGate(requester, id)).Ok? && IsValid(payload, partial, ingredients.Keys, tags.Keys).Err? ==>
        && status == BadRequest400
        && error == Some(IsValid(payload, partial, ingredients.Keys, tags.Keys).error)
        && recipes == old(recipes) && rows == old(rows)
      ensures old(AuthorGate(requester, id)).Ok? && IsValid(payload, partial, ingredients.Keys, tags.Keys).Ok? ==>
        && status == Ok200 && error == None
        && recipes == old(recipes)[id := Updated(old(recipes)[id], payload)]
        && rows == old(rows)[id := RowsOf(payload.ingredients)]
    {
      var gate := AuthorGate(requester, id);
      if gate.Err? {
        return gate.error, None;
      }
      var checked := IsValid(payload, partial, ingredients.Keys, tags.Keys);
      if checked.Err? {
        return BadRequest400, Some(checked.error);
      }
      AcceptedRowsKeepConstraints(payload, partial, ingredients.Keys, tags.Keys);
      assert payload.tags[0] in Elements(payload.tags);
      ReplaceRecipe(id, Updated(recipes[id], payload), RowsOf(payload.ingredients));
      status, error := Ok200, None;
    }

    /** The writes of `update`: the recipe row, then its ingredient rows
        deleted and recreated. */
    method ReplaceRecipe(id: RecipeId, r: Recipe, rs: seq<Row>)
      requires Valid() && id in recipes
      requires r.author == recipes[id].author && r.pubDate == recipes[id].pubDate
      requires ValidRecipe(r) && r.tags != {} && r.tags <= tags.Keys
      requires RowsConform(rs, ingredients.Keys)
      modifies this`recipes, this`rows
      ensures Valid()
      ensures recipes == old(recipes)[id := r]
      ensures rows == old(rows)[id := rs]
    {
      ghost var after := UpdateRecipeKeepsTablesOk(Snapshot(), ingredients.Keys, tags.Keys, id, r, rs);
      recipes := recipes[id := r];
      rows := rows[id := rs];
      assert Snapshot() == after;
    }

    /** `destroy`: the author check first; then the recipe, its ingredient
        rows and its entries in every favourites and cart row are deleted. */
    method DeleteRecipe(requester: UserId, id: RecipeId) returns (status: Status)
      requires Valid() && requester in users
      modifies this`recipes, this`rows, this`order, this`favorites, this`carts
      ensures Valid()
      ensures old(AuthorGate(requester, id)).Err? ==>
        && status == old(AuthorGate(requester, id)).error
        && recipes == old(recipes) && rows == old(rows) && order == old(order)
        && favorites == old(favorites) && carts == old(carts)
      ensures old(AuthorGate(requester, id)).Ok? ==>
        && status == NoContent204
        && recipes == old(recipes) - {id}
        && rows == old(rows) - {id}
        && order == Keep(old(order), old(recipes).Keys - {id})
        && favorites == RemoveRecipes(old(favorites), {id})
        && carts == RemoveRecipes(old(carts), {id})
    {
      var gate := AuthorGate(requester, id);
      if gate.Err? {
        return gate.error;
      }
      RemoveRecipe(id);
      status := NoContent204;
    }

    /** The cascade of deleting one recipe. */
    method RemoveRecipe(id: RecipeId)
      requires Valid()
      modifies this`recipes, this`rows, this`order, this`favorites, this`carts
      ensures Valid()
      ensures recipes == old(recipes) - {id}
      ensures rows == old(rows) - {id}
      ensures order == Keep(old(order), old(recipes).Keys - {id})
      ensures favorites == RemoveRecipes(old(favorites), {id})
      ensures carts == RemoveRecipes(old(carts), {id})
    {
      ghost var after := DeleteRecipeKeepsTablesOk(Snapshot(), ingredients.Keys, tags.Keys, id);
      order := Keep(order, recipes.Keys - {id});
      recipes := recipes - {id};
      rows := rows - {id};
      favorites := RemoveRecipes(favorites, {id});
      carts := RemoveRecipes(carts, {id});
      assert Snapshot() == after;
    }

    // ---------------------------------------------------------------
    // Read side


    /** `RecipesViewSet.get_annotated_queryset`: every recipe, newest first,
        with `is_favorited` and `is_in_shopping_cart` for the requester. */
    function AnnotatedRecipes(viewer: Option<UserId>): (vs: seq<RecipeView>)
      reads this
      requires Valid()
      ensures |vs| == |order|
      ensures forall i :: 0 <= i < |order| ==>
        && vs[i].id == order[i] && vs[i].recipe == recipes[order[i]]
        && (vs[i].isFavorited <==> viewer.Some? && viewer.value in favorites && order[i] in favorites[viewer.value])
        && (vs[i].isInShoppingCart <==> viewer.Some? && viewer.value in carts && order[i] in carts[viewer.value])
    {
      assert forall i :: 0 <= i < |order| ==> order[i] in Elements(order);
      Annotate(order, recipes, favorites, carts, viewer)
    }

    /** An anonymous requester sees every flag false, never missing. */
    lemma AnonymousSeesNoFlags()
      requires Valid()
      ensures forall v :: v in AnnotatedRecipes(None) ==> !v.isFavorited && !v.isInShoppingCart
    {
    }

    /** `UsersViewSet.get_queryset`: every user, with `is_subscribed` for the
        requester (false when anonymous). */
    function AnnotatedUsers(viewer: Option<UserId>): (m: map<UserId, bool>)
      reads this
      ensures m.Keys == users
      ensures forall u :: u in users ==> m[u] == GetIsSubscribed(viewer, u, subscriptions)
    {
      match viewer
      case None => map u | u in users :: false
      case Some(v) => map u | u in users :: (v, u) in subscriptions
    }

    /** The author's recipes in the default order (`obj.recipe.all()`). */
    function Authored(author: UserId): (s: seq<RecipeId>)
      reads this
      requires Valid()
      ensures Elements(s) == RecipesBy(recipes, author)
      ensures forall i :: 0 <= i < |s| ==> s[i] in recipes && recipes[s[i]].author == author
      ensures Distinct(s) && NewestFirst(s, recipes)
      ensures |s| == GetRecipesCount(recipes, author)
    {
      var s := Keep(order, RecipesBy(recipes, author));
      KeepNewestFirst(order, RecipesBy(recipes, author), recipes);
      DistinctIffSameCardinality(s);
      assert forall i :: 0 <= i < |s| ==> s[i] in Elements(s);
      s
    }

    /** `UsersViewSet.subscriptions` as written: it hands the serializer the
        requester's `Subscribe` rows, listed in `following`, not the users
        they follow. The page is empty when the requester follows nobody and
        is a server error otherwise; `AuthorViewOf` of each followed author
        is the answer intended. */
    function SubscriptionsAsWritten(requester: UserId, following: seq<UserId>): (r: Result<seq<seq<string>>, Status>)
      reads this
      requires forall a :: a in following <==> (requester, a) in subscriptions
      ensures r.Ok? <==> forall a :: (requester, a) !in subscriptions
      ensures r.Ok? ==> r.value == []
      ensures r.Err? ==> r.error == ServerError500
    {
      var rows := seq(|following|, i requires 0 <= i < |following| => SubscribeInstance(requester, following[i]));
      var r := ToRepresentationMany(SubscribeFields, rows);
      assert following != [] ==> r.Err? by {
        if following != [] {
          SubscribeSerializerOn(rows[0]);
        }
      }
      assert following == [] ==> forall a :: (requester, a) !in subscriptions;
      assert following != [] ==> (requester, following[0]) in subscriptions;
      r
    }

    /** `SubscribeSerializer` applied to an author: `is_subscribed`, the
        newest `recipes_limit` recipes and `recipes_count`. Without a
        positive limit the list holds exactly `recipes_count` recipes. */
    function AuthorViewOf(viewer: Option<UserId>, author: UserId, recipesLimit: Option<string>): (v: AuthorView)
      reads this
      requires Valid()
      ensures v.id == author
      ensures v.isSubscribed <==> viewer.Some? && (viewer.value, author) in subscriptions
      ensures v.recipesCount == |RecipesBy(recipes, author)|
      ensures |v.recipes| <= v.recipesCount
      ensures RecipesLimit(recipesLimit) <= 0 ==> |v.recipes| == v.recipesCount
      ensures RecipesLimit(recipesLimit) > 0 ==>
        |v.recipes| == (if RecipesLimit(recipesLimit) < v.recipesCount then RecipesLimit(recipesLimit) else v.recipesCount)
      ensures forall i :: 0 <= i < |v.recipes| ==> v.recipes[i].id == Authored(author)[i]
      ensures forall i :: 0 <= i < |v.recipes| ==>
        v.recipes[i].id in recipes && recipes[v.recipes[i].id].author == author
    {
      AuthorViewFrom(viewer, author, Authored(author), recipes, subscriptions, recipesLimit)
    }
    // ---------------------------------------------------------------
    // Shopping list

    /** Every recipe's rows joined with their ingredients. */
    function Joined(): (j: map<RecipeId, seq<SL.Item>>)
      reads this
      requires Valid()
      ensures j.Keys == rows.Keys
    {
      map r | r in rows :: ItemsOf(rows[r], ingredients)
    }

    /** The rows the shopping-list query reads: those of the recipes in the
        user's cart. */
    function CartItems(u: UserId): (items: seq<SL.Item>)
      reads this
      requires Valid() && u in users
      ensures carts[u] == {} ==> items == []
    {
      assert forall i :: 0 <= i < |order| ==> order[i] in Elements(order);
      Gather(order, carts[u], Joined())
    }

    /** The shopping list has a line for a (name, unit) exactly when some
        recipe in the cart has an ingredient row with that name and unit. */
    lemma CartKeys(u: UserId, k: SL.Key)
      requires Valid() && u in users
      ensures forall i :: 0 <= i < |order| ==> order[i] in Joined()
      ensures k in SL.ItemKeys(CartItems(u)) <==> SomeCartRecipeHas(order, carts[u], Joined(), k)
    {
      assert forall i :: 0 <= i < |order| ==> order[i] in Elements(order);
      GatherKeys(order, carts[u], Joined(), k);
    }

    /** The cart's rows carry, for each (name, unit), the sum of its amounts
        over the recipes in the cart, each recipe counted once. */
    lemma CartTotals(u: UserId, k: SL.Key)
      requires Valid() && u in users
      ensures carts[u] <= Joined().Keys
      ensures SL.Total(CartItems(u), k) == RecipesTotal(carts[u], Joined(), k)
    {
      assert forall i :: 0 <= i < |order| ==> order[i] in Elements(order);
      GatherTotal(order, carts[u], Joined(), k);
      assert carts[u] * Elements(order) == carts[u];
    }

    /** Each group of the list carries, for its (name, unit), the sum of that
        key's amounts over the recipes in the cart. */
    lemma ShoppingListTotals(u: UserId)
      requires Valid() && u in users
      ensures carts[u] <= Joined().Keys
      ensures var gs := SL.Aggregate(CartItems(u));
        forall i :: 0 <= i < |gs| ==> gs[i].total == RecipesTotal(carts[u], Joined(), gs[i].key)
    {
      var gs := SL.Aggregate(CartItems(u));
      assert carts[u] <= Joined().Keys;
      forall i | 0 <= i < |gs| ensures gs[i].total == RecipesTotal(carts[u], Joined(), gs[i].key) {
        CartTotals(u, gs[i].key);
      }
    }

    /** `download_shopping_cart`: the header, then one numbered line per
        distinct (name, unit) among the cart's rows with the summed amount. */
    method DownloadShoppingCart(u: UserId) returns (content: string)
      requires Valid() && u in users
      ensures content == SL.ShoppingListText(SL.Aggregate(CartItems(u)))
      ensures carts[u] <= Joined().Keys
      ensures var gs := SL.Aggregate(CartItems(u));
        forall i :: 0 <= i < |gs| ==> gs[i].total == RecipesTotal(carts[u], Joined(), gs[i].key)
    {
      ShoppingListTotals(u);
      var groups := SL.Aggregate(CartItems(u));
      content := SL.Render(groups);
    }

    /** An empty cart gives the header alone, not an error. */
    lemma EmptyCartYieldsHeader(u: UserId)
      requires Valid() && u in users && carts[u] == {}
      ensures SL.ShoppingListText(SL.Aggregate(CartItems(u))) == SL.Header
    {
      assert CartItems(u) == [];
    }
  }
}
