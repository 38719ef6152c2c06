/** Small shared vocabulary: nullable values and .NET's string.IsNullOrEmpty. */
module Common {

  /** A nullable value: `None` stands for C#'s `null` and for JavaScript's `null`/`undefined`. */
  datatype Option<+T> = None | Some(value: T)

  /** `string.IsNullOrEmpty` on a nullable string. */
  predicate IsNullOrEmpty(s: Option<string>)
  {
    s.None? || s.value == ""
  }

  /** `a ?? b` on a nullable string. */
  function OrElse(s: Option<string>, fallback: string): (r: string)
    ensures s.Some? ==> r == s.value
    ensures s.None? ==> r == fallback
  {
    match s
    case Some(v) => v
    case None => fallback
  }

  /** A non-empty set of keys has a key to pick. */
  lemma NonEmptyHasElement(s: set<int>)
    requires s != {}
    ensures exists x :: x in s
  {
    if forall x :: x !in s {
      assert false;
    }
  }
}
