/** The rules the API serializers apply: recipe write validation (field
    checks, then the cross-field `validate`), the ingredient rows a payload
    becomes, and the read-side fields of the subscription serializer. */
module Serializers {
  import opened Common
  import opened Models
  import opened Numerals

  /** One `{id, amount}` entry of the `ingredients` list. */
  datatype IngredientEntry = IngredientEntry(id: IngredientId, amount: int)

  /** The write payload of a recipe. `None` stands for a key missing from
      the request; the image is not modelled. */
  datatype RecipePayload = RecipePayload(
    name: Option<string>,
    text: Option<string>,
    cookingTime: Option<int>,
    ingredients: seq<IngredientEntry>,
    tags: seq<TagId>)

  datatype Field = NameField | TextField | CookingTimeField | IngredientsField | TagsField

  /** Why a payload is rejected with 400: field errors are all reported
      together and stop validation before `validate` runs; `validate` then
      raises at its first failing check. */
  datatype ValidationError =
    | InvalidFields(fields: set<Field>)
    | DuplicateIngredients
    | NoTags
    | DuplicateTags

  /** A required field may be missing only in a partial update. */
  predicate NameOk(name: Option<string>, partial: bool) {
    match name
    case None => partial
    case Some(n) => 1 <= |n| <= MaxLengthCharField
  }

  predicate TextOk(text: Option<string>, partial: bool) {
    match text
    case None => partial
    case Some(t) => t != []
  }

  /** `cooking_time` lies in [MIN_VALUE_TIME, MAX_VALUE_TIME]. */
  predicate CookingTimeOk(cookingTime: Option<int>, partial: bool) {
    match cookingTime
    case None => partial
    case Some(c) => MinValueTime <= c <= MaxValueTime
  }

  /** Every entry names an existing ingredient and its amount lies in
      [MIN_VALUE_AMOUNT, MAX_VALUE_AMOUNT]. */
  predicate IngredientsOk(entries: seq<IngredientEntry>, ingredientIds: set<IngredientId>) {
    forall i :: 0 <= i < |entries| ==>
      entries[i].id in ingredientIds && MinValueAmount <= entries[i].amount <= MaxValueAmount
  }

  /** Every tag id names an existing tag. */
  predicate TagsOk(tags: seq<TagId>, tagIds: set<TagId>) {
    forall i :: 0 <= i < |tags| ==> tags[i] in tagIds
  }

  /** The fields whose own checks fail. */
  function FieldErrors(p: RecipePayload, partial: bool, ingredientIds: set<IngredientId>, tagIds: set<TagId>): (fs: set<Field>)
    ensures NameField in fs <==> !NameOk(p.name, partial)
    ensures TextField in fs <==> !TextOk(p.text, partial)
    ensures CookingTimeField in fs <==> !CookingTimeOk(p.cookingTime, partial)
    ensures IngredientsField in fs <==> !IngredientsOk(p.ingredients, ingredientIds)
    ensures TagsField in fs <==> !TagsOk(p.tags, tagIds)
  {
    (if NameOk(p.name, partial) then {} else {NameField})
    + (if TextOk(p.text, partial) then {} else {TextField})
    + (if CookingTimeOk(p.cookingTime, partial) then {} else {CookingTimeField})
    + (if IngredientsOk(p.ingredients, ingredientIds) then {} else {IngredientsField})
    + (if TagsOk(p.tags, tagIds) then {} else {TagsField})
  }

  /** `[item['ingredient'] for item in data['ingredients']]`. */
  function IngredientIds(entries: seq<IngredientEntry>): (ids: seq<IngredientId>)
    ensures |ids| == |entries| && forall i :: 0 <= i < |entries| ==> ids[i] == entries[i].id
  {
    if entries == [] then [] else [entries[0].id] + IngredientIds(entries[1..])
  }

  /** `RecipeWriteSerializer.validate`: duplicates are found by comparing a
      list's length with the size of its set, as the serializer does. The
      duplicate-ingredient check is the only check of the ingredient list, so
      an empty list passes. */
  function Validate(p: RecipePayload): (r: Result<RecipePayload, ValidationError>)
    ensures r.Ok? <==> Distinct(IngredientIds(p.ingredients)) && p.tags != [] && Distinct(p.tags)
    ensures r.Ok? ==> r.value == p
    ensures r == Err(DuplicateIngredients) <==> !Distinct(IngredientIds(p.ingredients))
    ensures r == Err(NoTags) <==> Distinct(IngredientIds(p.ingredients)) && p.tags == []
    ensures r == Err(DuplicateTags) <==>
      Distinct(IngredientIds(p.ingredients)) && p.tags != [] && !Distinct(p.tags)
  {
    var ids := IngredientIds(p.ingredients);
    DistinctIffSameCardinality(ids);
    DistinctIffSameCardinality(p.tags);
    if |ids| != |Elements(ids)| then Err(DuplicateIngredients)
    else if p.tags == [] then Err(NoTags)
    else if |p.tags| != |Elements(p.tags)| then Err(DuplicateTags)
    else Ok(p)
  }

  /** Everything a payload must satisfy to be written. */
  predicate Acceptable(p: RecipePayload, partial: bool, ingredientIds: set<IngredientId>, tagIds: set<TagId>) {
    && NameOk(p.name, partial)
    && TextOk(p.text, partial)
    && CookingTimeOk(p.cookingTime, partial)
    && IngredientsOk(p.ingredients, ingredientIds)
    && TagsOk(p.tags, tagIds)
    && (forall i, j :: 0 <= i < j < |p.ingredients| ==> p.ingredients[i].id != p.ingredients[j].id)
    && p.tags != []
    && (forall i, j :: 0 <= i < j < |p.tags| ==> p.tags[i] != p.tags[j])
  }

  /** `is_valid()`: the field checks, then `validate`; on success the
      validated data is the payload itself. */
  function IsValid(p: RecipePayload, partial: bool, ingredientIds: set<IngredientId>, tagIds: set<TagId>)
    : (r: Result<RecipePayload, ValidationError>)
    ensures r.Ok? <==> Acceptable(p, partial, ingredientIds, tagIds)
    ensures r.Ok? ==> r.value == p
    ensures FieldErrors(p, partial, ingredientIds, tagIds) != {} ==>
      r == Err(InvalidFields(FieldErrors(p, partial, ingredientIds, tagIds)))
    ensures FieldErrors(p, partial, ingredientIds, tagIds) == {} ==> r == Validate(p)
  {
    var fs := FieldErrors(p, partial, ingredientIds, tagIds);
    if fs != {} then Err(InvalidFields(fs)) else Validate(p)
  }

  /** `create_ingredients`: one row per payload entry, carrying its amount. */
  function RowsOf(entries: seq<IngredientEntry>): (rows: seq<Row>)
    ensures |rows| == |entries|
    ensures forall i :: 0 <= i < |entries| ==>
      rows[i].ingredient == entries[i].id && rows[i].amount == entries[i].amount
  {
    if entries == [] then [] else [Row(entries[0].id, entries[0].amount)] + RowsOf(entries[1..])
  }

  /** The rows made from an accepted payload satisfy the table's constraints:
      one row per (recipe, ingredient) pair, amounts at least 1, every
      ingredient existing. */
  lemma {:induction false} AcceptedRowsKeepConstraints(
    p: RecipePayload, partial: bool, ingredientIds: set<IngredientId>, tagIds: set<TagId>)
    requires IsValid(p, partial, ingredientIds, tagIds).Ok?
    ensures UniqueIngredientRows(RowsOf(p.ingredients))
    ensures RowAmountsPositive(RowsOf(p.ingredients))
    ensures forall i :: 0 <= i < |RowsOf(p.ingredients)| ==> RowsOf(p.ingredients)[i].ingredient in ingredientIds
  {
    var rows := RowsOf(p.ingredients);
    forall i, j | 0 <= i < j < |rows| ensures rows[i].ingredient != rows[j].ingredient {
      assert p.ingredients[i].id != p.ingredients[j].id;
    }
  }

  /** `serializer.save(**kwargs)`: `create` receives the validated data
      merged with the keyword arguments of `save`. */
  function SaveData<V>(validated: map<string, V>, kwargs: map<string, V>): (data: map<string, V>)
    ensures data.Keys == validated.Keys + kwargs.Keys
    ensures forall k :: k in kwargs ==> data[k] == kwargs[k]
    ensures forall k :: k in validated && k !in kwargs ==> data[k] == validated[k]
  {
    validated + kwargs
  }

  /** A Python call `f(**data, key=value)`: a keyword supplied twice is a
      `TypeError` before `f` runs. */
  function CallWithKeyword<V>(data: map<string, V>, key: string, value: V): (r: Result<map<string, V>, string>)
    ensures r.Err? <==> key in data
    ensures r.Ok? ==> r.value.Keys == data.Keys + {key} && r.value[key] == value
  {
    if key in data then Err("TypeError: got multiple values for keyword argument") else Ok(data[key := value])
  }

  /** The keyword arguments of `Recipe.objects.create` as written: the view
      saves with `author=request.user` and `create` passes `author=user`
      again, so the call fails whatever was validated. */
  function CreateKwargsAsWritten<V>(validated: map<string, V>, user: V): (r: Result<map<string, V>, string>)
    ensures r.Err?
  {
    var data := SaveData(validated, map["author" := user]);
    assert "author" in data;
    CallWithKeyword(data, "author", user)
  }

  /** The intended call: the author supplied once. The recipe is authored
      by the requester and every validated field is passed on. */
  function CreateKwargs<V>(validated: map<string, V>, user: V): (kwargs: map<string, V>)
    ensures kwargs.Keys == validated.Keys + {"author"}
    ensures kwargs["author"] == user
    ensures forall k :: k in validated && k != "author" ==> kwargs[k] == validated[k]
  {
    SaveData(validated, map["author" := user])
  }

  /** `int(request.GET.get('recipes_limit', 0))`, with `ValueError` read as
      0. */
  function RecipesLimit(param: Option<string>): (limit: int)
    ensures param == None ==> limit == 0
    ensures param.Some? && ParseInt(param.value) == None ==> limit == 0
    ensures param.Some? && ParseInt(param.value).Some? ==> limit == ParseInt(param.value).value
  {
    match param
    case None => 0
    case Some(s) => ParseInt(s).GetOr(0)
  }

  /** `SubscribeSerializer.get_recipes`: with a positive limit the first
      `limit` recipes of the author (all of them when there are fewer),
      otherwise all of them. */
  function GetRecipes<T>(recipes: seq<T>, param: Option<string>): (r: seq<T>)
    ensures RecipesLimit(param) > 0 ==>
      |r| == (if RecipesLimit(param) < |recipes| then RecipesLimit(param) else |recipes|)
    ensures RecipesLimit(param) <= 0 ==> r == recipes
    ensures r == recipes[..|r|]
  {
    var limit := RecipesLimit(param);
    if limit > 0 && limit < |recipes| then recipes[..limit] else recipes
  }

  /** A missing, non-positive or non-numeric limit returns every recipe. */
  lemma NoLimitReturnsAll<T>(recipes: seq<T>, param: Option<string>)
    requires param == None || ParseInt(param.value) == None || ParseInt(param.value).value <= 0
    ensures GetRecipes(recipes, param) == recipes
  {
  }

  /** `?recipes_limit=n` for a positive n keeps the first min(n, count)
      recipes. */
  lemma {:induction false} LimitKeepsPrefix<T>(recipes: seq<T>, n: nat)
    requires n > 0
    ensures GetRecipes(recipes, Some(NatToString(n))) == recipes[..if n < |recipes| then n else |recipes|]
  {
    ParseNatToString(n);
  }

  /** What a serializer can be handed: a `User`, or a `Subscribe` row (a
      follower and the author followed). */
  datatype Instance = UserInstance(user: UserId) | SubscribeInstance(follower: UserId, author: UserId)

  /** The attributes each kind of object has, among those the user
      serializers look up. */
  function Attributes(obj: Instance): set<string> {
    match obj
    case UserInstance(_) => {"email", "id", "username", "first_name", "last_name"}
    case SubscribeInstance(_, _) => {"id", "user", "author"}
  }

  /** `SubscribeSerializer.Meta.fields`, in declaration order. */
  const SubscribeFields: seq<string> :=
    ["email", "id", "username", "first_name", "last_name", "is_subscribed", "recipes", "recipes_count"]

  /** The method fields: each is computed from a `User` (`get_is_subscribed`
      filters subscriptions by `author=obj`, the other two read
      `obj.recipe`), and raises on any other object. */
  const MethodFields: set<string> := {"is_subscribed", "recipes", "recipes_count"}

  /** `to_representation` over `fields`: a plain field is read-only, so one
      the object lacks is skipped; a method field on an object that is not
      a `User` raises, which the view answers with a server error. The
      result lists the fields the answer carries. */
  function ToRepresentation(fields: seq<string>, obj: Instance): (r: Result<seq<string>, Status>)
    ensures r.Err? ==> r.error == ServerError500
    ensures r.Ok? <==> obj.UserInstance? || forall i :: 0 <= i < |fields| ==> fields[i] !in MethodFields
    ensures r.Ok? ==> forall f :: f in r.value <==> f in fields && (f in MethodFields || f in Attributes(obj))
  {
    if fields == [] then Ok([])
    else
      var f := fields[0];
      if f in MethodFields && !obj.UserInstance? then Err(ServerError500)
      else
        var rest := ToRepresentation(fields[1..], obj);
        assert forall i :: 1 <= i < |fields| ==> fields[i] == fields[1..][i - 1];
        if rest.Err? then rest
        else Ok((if f in MethodFields || f in Attributes(obj) then [f] else []) + rest.value)
  }

  /** `many=True`: each object is represented in turn, and the first failure
      is the answer. */
  function ToRepresentationMany(fields: seq<string>, objs: seq<Instance>): (r: Result<seq<seq<string>>, Status>)
    ensures r.Ok? <==> forall i :: 0 <= i < |objs| ==> ToRepresentation(fields, objs[i]).Ok?
    ensures r.Ok? ==> |r.value| == |objs|
    ensures r.Ok? ==> forall i :: 0 <= i < |objs| ==> r.value[i] == ToRepresentation(fields, objs[i]).value
    ensures r.Err? ==> r.error == ServerError500
  {
    if objs == [] then Ok([])
    else
      var first := ToRepresentation(fields, objs[0]);
      var rest := ToRepresentationMany(fields, objs[1..]);
      assert forall i :: 1 <= i < |objs| ==> objs[i] == objs[1..][i - 1];
      if first.Err? then Err(first.error)
      else if rest.Err? then rest
      else Ok([first.value] + rest.value)
  }

  /** Handed the followed `User`, the subscription serializer answers every
      declared field; handed the `Subscribe` row, it fails with a server
      error. */
  lemma SubscribeSerializerOn(obj: Instance)
    ensures obj.UserInstance? ==>
      && ToRepresentation(SubscribeFields, obj).Ok?
      && (forall f :: f in ToRepresentation(SubscribeFields, obj).value <==> f in SubscribeFields)
    ensures obj.SubscribeInstance? ==> ToRepresentation(SubscribeFields, obj) == Err(ServerError500)
  {
    assert SubscribeFields[5] in MethodFields;
    forall f | f in SubscribeFields ensures f in MethodFields || f in Attributes(UserInstance(0)) {
    }
  }

  /** `CustomUserSerializer.get_is_subscribed`: an authenticated requester
      who follows `obj`. */
  function GetIsSubscribed(requester: Option<UserId>, obj: UserId, subscriptions: set<(UserId, UserId)>): (b: bool)
    ensures b ==> requester.Some? && (requester.value, obj) in subscriptions
    ensures requester.Some? && (requester.value, obj) in subscriptions ==> b
  {
    requester.Some? && (requester.value, obj) in subscriptions
  }

  /** `SubscribeSerializer.get_recipes_count`: the number of recipes `obj`
      wrote; zero exactly when no recipe is theirs, and never more than there
      are recipes. */
  function GetRecipesCount(recipes: map<RecipeId, Recipe>, obj: UserId): (n: nat)
    ensures n <= |recipes|
    ensures n == 0 <==> forall id :: id in recipes ==> recipes[id].author != obj
  {
    var s := RecipesBy(recipes, obj);
    assert |s| <= |recipes.Keys| by {
      SubsetCardinality(s, recipes.Keys);
    }
    assert |recipes.Keys| == |recipes|;
    assert s != {} ==> exists id :: id in s;
    |s|
  }

  lemma {:induction false} SubsetCardinality<T>(small: set<T>, big: set<T>)
    requires small <= big
    ensures |small| <= |big|
    decreases small
  {
    if small != {} {
      var x :| x in small;
      SubsetCardinality(small - {x}, big - {x});
    }
  }
}
