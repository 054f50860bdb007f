/** Shared vocabulary: optional values, results, the HTTP outcomes of the
    modelled endpoints, primary-key types and facts about distinct sequences. */
module Common {

  datatype Option<T> = None | Some(value: T) {
    function GetOr(default: T): T {
      if Some? then value else default
    }
  }

  datatype Result<T, E> = Ok(value: T) | Err(error: E)

  /** The status codes the modelled endpoints answer with. */
  datatype Status =
    | Ok200
    | Created201
    | NoContent204
    | BadRequest400
    | Unauthorized401
    | Forbidden403
    | NotFound404
    | ServerError500

  /** Primary keys of the relational tables. */
  type UserId = nat
  type RecipeId = nat
  type IngredientId = nat
  type TagId = nat

  /** No value occurs twice. */
  predicate Distinct<T(==)>(s: seq<T>) {
    forall i, j :: 0 <= i < j < |s| ==> s[i] != s[j]
  }

  /** Python's `set(s)`. */
  function Elements<T>(s: seq<T>): set<T> {
    set x | x in s
  }

  lemma {:induction false} ElementsBound<T>(s: seq<T>)
    ensures |Elements(s)| <= |s|
  {
    if s != [] {
      ElementsBound(s[1..]);
      assert Elements(s) == {s[0]} + Elements(s[1..]);
    }
  }

  /** `len(s) == len(set(s))` holds exactly when no element repeats: the
      test the serializer writes as a length comparison means "distinct". */
  lemma {:induction false} DistinctIffSameCardinality<T>(s: seq<T>)
    ensures Distinct(s) <==> |Elements(s)| == |s|
  {
    if s != [] {
      var t := s[1..];
      DistinctIffSameCardinality(t);
      assert Elements(s) == {s[0]} + Elements(t);
      if s[0] in t {
        ElementsBound(t);
        var j :| 0 <= j < |t| && t[j] == s[0];
        assert s[0] == s[j + 1];
        assert Elements(s) == Elements(t);
      } else {
        assert s[0] !in Elements(t);
        if Distinct(t) {
          forall i, j | 0 <= i < j < |s| ensures s[i] != s[j] {
            if i > 0 {
              assert s[i] == t[i - 1] && s[j] == t[j - 1];
            } else {
              assert s[j] == t[j - 1];
            }
          }
        } else {
          var i, j :| 0 <= i < j < |t| && t[i] == t[j];
          assert s[i + 1] == s[j + 1];
        }
      }
    }
  }
}
