/** The default ordering of recipes (newest `pub_date` first) and the
    order-preserving filters the queries apply to it. */
module Ordering {
  import opened Common
  import opened Models

  /** Recipes listed newest first. */
  predicate NewestFirst(order: seq<RecipeId>, recipes: map<RecipeId, Recipe>) {
    forall i, j :: 0 <= i < j < |order| && order[i] in recipes && order[j] in recipes ==>
      recipes[order[i]].pubDate >= recipes[order[j]].pubDate
  }

  /** Puts a new recipe into the listing: in front of the first recipe that
      is not newer than it. */
  function InsertNewest(order: seq<RecipeId>, id: RecipeId, recipes: map<RecipeId, Recipe>): (r: seq<RecipeId>)
    requires id in recipes
    requires forall i :: 0 <= i < |order| ==> order[i] in recipes
    ensures Elements(r) == Elements(order) + {id}
    ensures |r| == |order| + 1
    ensures Distinct(order) && id !in order ==> Distinct(r)
    ensures NewestFirst(order, recipes) ==> NewestFirst(r, recipes)
  {
    if order == [] || recipes[order[0]].pubDate <= recipes[id].pubDate then
      PrependNewest(order, id, recipes);
      [id] + order
    else
      var rest := InsertNewest(order[1..], id, recipes);
      PrependOlder(order, id, recipes, rest);
      [order[0]] + rest
  }

  /** A recipe at least as new as the head of the listing may go in front. */
  lemma {:induction false} PrependNewest(order: seq<RecipeId>, id: RecipeId, recipes: map<RecipeId, Recipe>)
    requires id in recipes
    requires order == [] || (order[0] in recipes && recipes[order[0]].pubDate <= recipes[id].pubDate)
    ensures Elements([id] + order) == Elements(order) + {id}
    ensures Distinct(order) && id !in order ==> Distinct([id] + order)
    ensures NewestFirst(order, recipes) ==> NewestFirst([id] + order, recipes)
  {
    assert Elements([id] + order) == Elements(order) + {id};
    if NewestFirst(order, recipes) && order != [] {
      forall j | 0 <= j < |order| && order[j] in recipes ensures recipes[id].pubDate >= recipes[order[j]].pubDate {
        if j > 0 {
          assert recipes[order[0]].pubDate >= recipes[order[j]].pubDate;
        }
      }
      HeadNewestFirst(id, order, recipes);
    }
  }

  /** The head of the listing, newer than the inserted recipe, stays in
      front of the rest with the recipe inserted. */
  lemma {:induction false} PrependOlder(order: seq<RecipeId>, id: RecipeId, recipes: map<RecipeId, Recipe>, rest: seq<RecipeId>)
    requires id in recipes && order != []
    requires forall i :: 0 <= i < |order| ==> order[i] in recipes
    requires recipes[order[0]].pubDate > recipes[id].pubDate
    requires Elements(rest) == Elements(order[1..]) + {id}
    requires Distinct(order[1..]) && id !in order[1..] ==> Distinct(rest)
    requires NewestFirst(order[1..], recipes) ==> NewestFirst(rest, recipes)
    ensures Elements([order[0]] + rest) == Elements(order) + {id}
    ensures Distinct(order) && id !in order ==> Distinct([order[0]] + rest)
    ensures NewestFirst(order, recipes) ==> NewestFirst([order[0]] + rest, recipes)
  {
    var r := [order[0]] + rest;
    assert Elements(order) == {order[0]} + Elements(order[1..]);
    assert Elements(r) == {order[0]} + Elements(rest);
    if Distinct(order) && id !in order {
      TailDistinct(order);
      assert order[0] !in rest;
    }
    if NewestFirst(order, recipes) {
      TailNewestFirst(order, recipes);
      forall j | 0 <= j < |rest| && rest[j] in recipes ensures recipes[order[0]].pubDate >= recipes[rest[j]].pubDate {
        var x := rest[j];
        assert x in Elements(rest);
        if x != id {
          var k :| 0 <= k < |order[1..]| && order[1..][k] == x;
          assert order[k + 1] == x;
        }
      }
      HeadNewestFirst(order[0], rest, recipes);
    }
  }

  lemma {:induction false} TailDistinct(s: seq<RecipeId>)
    requires s != [] && Distinct(s)
    ensures Distinct(s[1..]) && s[0] !in s[1..]
  {
    forall i, j | 0 <= i < j < |s| - 1 ensures s[1..][i] != s[1..][j] {
      assert s[i + 1] != s[j + 1];
    }
    forall i | 0 <= i < |s| - 1 ensures s[1..][i] != s[0] {
      assert s[1..][i] == s[i + 1];
    }
  }

  lemma {:induction false} TailNewestFirst(s: seq<RecipeId>, recipes: map<RecipeId, Recipe>)
    requires s != [] && NewestFirst(s, recipes)
    ensures NewestFirst(s[1..], recipes)
  {
    forall i, j | 0 <= i < j < |s| - 1 && s[1..][i] in recipes && s[1..][j] in recipes ensures
      recipes[s[1..][i]].pubDate >= recipes[s[1..][j]].pubDate {
      assert s[1..][i] == s[i + 1] && s[1..][j] == s[j + 1];
    }
  }

  /** A recipe at least as new as every recipe of a newest-first listing may
      go in front of it. */
  lemma {:induction false} HeadNewestFirst(x: RecipeId, rest: seq<RecipeId>, recipes: map<RecipeId, Recipe>)
    requires NewestFirst(rest, recipes)
    requires forall j :: 0 <= j < |rest| && x in recipes && rest[j] in recipes ==>
      recipes[x].pubDate >= recipes[rest[j]].pubDate
    ensures NewestFirst([x] + rest, recipes)
  {
    var r := [x] + rest;
    forall i, j | 0 <= i < j < |r| && r[i] in recipes && r[j] in recipes ensures
      recipes[r[i]].pubDate >= recipes[r[j]].pubDate {
      assert r[j] == rest[j - 1];
      if i > 0 {
        assert r[i] == rest[i - 1];
      }
    }
  }

  /** The elements of `s` that are in `keep`, in the order of `s` (a
      queryset filter over the default ordering). */
  function Keep(s: seq<RecipeId>, keep: set<RecipeId>): (r: seq<RecipeId>)
    ensures forall x :: x in r <==> x in s && x in keep
    ensures |r| <= |s|
    ensures Distinct(s) ==> Distinct(r)
  {
    if s == [] then []
    else
      var rest := Keep(s[1..], keep);
      assert Distinct(s) ==> Distinct(s[1..]) && s[0] !in rest by {
        if Distinct(s) {
          TailDistinct(s);
        }
      }
      if s[0] in keep then [s[0]] + rest else rest
  }

  /** Filtering keeps a newest-first listing newest first. */
  lemma {:induction false} KeepNewestFirst(s: seq<RecipeId>, keep: set<RecipeId>, recipes: map<RecipeId, Recipe>)
    requires NewestFirst(s, recipes)
    ensures NewestFirst(Keep(s, keep), recipes)
  {
    if s != [] {
      TailNewestFirst(s, recipes);
      KeepNewestFirst(s[1..], keep, recipes);
      var rest := Keep(s[1..], keep);
      if s[0] in keep {
        forall j | 0 <= j < |rest| && s[0] in recipes && rest[j] in recipes ensures
          recipes[s[0]].pubDate >= recipes[rest[j]].pubDate {
          assert rest[j] in s[1..];
          var k :| 0 <= k < |s[1..]| && s[1..][k] == rest[j];
          assert s[k + 1] == rest[j];
        }
        HeadNewestFirst(s[0], rest, recipes);
      }
    }
  }

  /** Filtering out a just-inserted recipe undoes the insertion. */
  lemma {:induction false} KeepUndoesInsert(order: seq<RecipeId>, id: RecipeId, recipes: map<RecipeId, Recipe>, keep: set<RecipeId>)
    requires id in recipes && id !in keep
    requires forall i :: 0 <= i < |order| ==> order[i] in recipes
    ensures Keep(InsertNewest(order, id, recipes), keep) == Keep(order, keep)
  {
    if order != [] && recipes[order[0]].pubDate > recipes[id].pubDate {
      KeepUndoesInsert(order[1..], id, recipes, keep);
    }
  }

  /** A filter that keeps every element changes nothing. */
  lemma {:induction false} KeepEverything(s: seq<RecipeId>, keep: set<RecipeId>)
    requires forall i :: 0 <= i < |s| ==> s[i] in keep
    ensures Keep(s, keep) == s
  {
    if s != [] {
      KeepEverything(s[1..], keep);
    }
  }

  /** A newest-first listing stays newest first when recipes are removed
      from the map. */
  lemma NewestFirstSubmap(s: seq<RecipeId>, recipes: map<RecipeId, Recipe>, smaller: map<RecipeId, Recipe>)
    requires NewestFirst(s, recipes)
    requires forall x :: x in smaller ==> x in recipes && smaller[x] == recipes[x]
    ensures NewestFirst(s, smaller)
  {
  }
}
