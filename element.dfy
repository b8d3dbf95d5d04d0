/**
 * The host's element (the record being saved) as far as validation touches
 * it: a per-attribute list of errors that validators append to with
 * `addError`.
 */
module Elements {

  /** The errors recorded for `attribute` in `errors` (none when the attribute has no entry). */
  function ErrorsIn<E>(errors: map<string, seq<E>>, attribute: string): seq<E> {
    if attribute in errors then errors[attribute] else []
  }

  /**
   * `errors` after `added` has been appended, one `addError` call at a time,
   * to the list of `attribute`; adding nothing leaves the map as it was.
   */
  function Appended<E>(errors: map<string, seq<E>>, attribute: string, added: seq<E>): (r: map<string, seq<E>>)
    ensures ErrorsIn(r, attribute) == ErrorsIn(errors, attribute) + added
    ensures forall a :: a != attribute ==> ErrorsIn(r, a) == ErrorsIn(errors, a)
    ensures r.Keys == if added == [] then errors.Keys else errors.Keys + {attribute}
  {
    if added == [] then errors else errors[attribute := ErrorsIn(errors, attribute) + added]
  }

  /** Appending two batches in turn is appending their concatenation. */
  lemma AppendedTwice<E>(errors: map<string, seq<E>>, attribute: string, xs: seq<E>, ys: seq<E>)
    ensures Appended(Appended(errors, attribute, xs), attribute, ys) == Appended(errors, attribute, xs + ys)
  {
    if xs == [] {
      assert xs + ys == ys;
    } else if ys == [] {
      assert xs + ys == xs;
    } else {
      assert ErrorsIn(errors, attribute) + xs + ys == ErrorsIn(errors, attribute) + (xs + ys);
    }
  }

  class Element<E> {
    /** The errors added so far, per attribute, in the order they were added. */
    var errors: map<string, seq<E>>

    constructor ()
      ensures errors == map[]
    {
      errors := map[];
    }

    /** `addError($attribute, $error)`: appends `error` to the list of `attribute`. */
    method AddError(attribute: string, error: E)
      modifies this
      ensures errors == Appended(old(errors), attribute, [error])
      ensures ErrorsIn(errors, attribute) == ErrorsIn(old(errors), attribute) + [error]
    {
      errors := errors[attribute := ErrorsIn(errors, attribute) + [error]];
    }
  }
}
