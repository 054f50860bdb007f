/** The entities of the recipes and users apps, their field limits and the
    record-level rules the schema enforces. */
module Models {
  import opened Common

  /** Field limits of the models and serializers. */
  const MaxLengthCharField: nat := 200
  const MaxLengthColor: nat := 7
  const MinValueTime: int := 1
  const MaxValueTime: int := 1440
  const MinValueAmount: int := 1
  const MaxValueAmount: int := 1000

  /** A user account; only the block flag is read by the modelled code. */
  datatype User = User(email: string, username: string, firstName: string, lastName: string, isBlocked: bool)

  /** A freshly registered account: `is_blocked` defaults to false. */
  function NewUser(email: string, username: string, firstName: string, lastName: string): (u: User)
    ensures !u.isBlocked
    ensures u.email == email && u.username == username
  {
    User(email, username, firstName, lastName, false)
  }

  /** Ingredients carry no uniqueness constraint: two rows may share a name
      and a unit. */
  datatype Ingredient = Ingredient(name: string, measurementUnit: string)

  datatype Tag = Tag(name: string, color: string, slug: string)

  predicate IsSlugChar(c: char) {
    'a' <= c <= 'z' || 'A' <= c <= 'Z' || '0' <= c <= '9' || c == '-' || c == '_'
  }

  predicate AllSlugChars(s: string) {
    forall i :: 0 <= i < |s| ==> IsSlugChar(s[i])
  }

  /** The model's own `RegexValidator(r'^[-a-zA-Z0-9_]+$')`. The validator
      searches with Python's `$`, which also matches just before a final
      newline, so "news\n" passes this check. */
  predicate SlugRegexAccepts(s: string) {
    (|s| >= 1 && AllSlugChars(s))
    || (|s| >= 2 && s[|s| - 1] == '\n' && AllSlugChars(s[..|s| - 1]))
  }

  /** The slug field's built-in validator (anchored at the very end). */
  predicate ValidateSlugAccepts(s: string) {
    |s| >= 1 && AllSlugChars(s)
  }

  /** Everything `Tag.slug` checks: its length limit, the built-in slug
      validator and the extra regular expression. */
  predicate SlugFieldAccepts(s: string) {
    |s| <= MaxLengthCharField && ValidateSlugAccepts(s) && SlugRegexAccepts(s)
  }

  /** A slug is accepted exactly when it is non-empty, at most 200 characters
      long and made only of ASCII letters, digits, '-' and '_'. */
  lemma SlugFieldAcceptsExactly(s: string)
    ensures SlugFieldAccepts(s) <==> 1 <= |s| <= MaxLengthCharField && AllSlugChars(s)
  {
  }

  /** The extra regular expression alone lets a trailing newline through:
      every valid slug followed by "\n" passes it, and the built-in validator
      is what rejects it. */
  lemma {:induction false} SlugRegexAllowsTrailingNewline(s: string)
    requires |s| >= 1 && AllSlugChars(s)
    ensures SlugRegexAccepts(s + "\n") && !ValidateSlugAccepts(s + "\n")
  {
    var t := s + "\n";
    assert t[..|t| - 1] == s;
    assert !IsSlugChar(t[|t| - 1]);
  }

  predicate ValidTag(t: Tag) {
    |t.name| <= MaxLengthCharField && |t.color| <= MaxLengthColor && SlugFieldAccepts(t.slug)
  }

  /** `slug` is unique across tags. */
  predicate UniqueSlugs(tags: map<TagId, Tag>) {
    forall a, b :: a in tags && b in tags && a != b ==> tags[a].slug != tags[b].slug
  }

  /** A recipe row; `pubDate` is set once, when the row is inserted. */
  datatype Recipe = Recipe(
    author: UserId,
    name: string,
    text: string,
    cookingTime: int,
    tags: set<TagId>,
    pubDate: int)

  /** The recipes `author` wrote (the author's `recipe` related set). */
  function RecipesBy(recipes: map<RecipeId, Recipe>, author: UserId): (s: set<RecipeId>)
    ensures s <= recipes.Keys
    ensures forall r :: r in s <==> r in recipes && recipes[r].author == author
  {
    set r | r in recipes && recipes[r].author == author
  }

  /** A `RecipeIngredient` row of one recipe. */
  datatype Row = Row(ingredient: IngredientId, amount: int)

  /** At most one row per (recipe, ingredient) pair. */
  predicate UniqueIngredientRows(rows: seq<Row>) {
    forall i, j :: 0 <= i < j < |rows| ==> rows[i].ingredient != rows[j].ingredient
  }

  /** `RecipeIngredient.amount >= 1` and `Recipe.cooking_time >= 1`. */
  predicate RowAmountsPositive(rows: seq<Row>) {
    forall i :: 0 <= i < |rows| ==> rows[i].amount >= 1
  }

  predicate ValidRecipe(r: Recipe) {
    r.cookingTime >= 1
  }
}
