// What the request schemas share: the verdict of a `validate` call, the missing-field list
// and the Python conversions the validators apply to request values.
module Schemas {
  import Wrappers
  import Text
  import opened Json

  /**
   * The outcome of a schema's `validate`: `(True, None)`, `(False, message)`, or an exception
   * that escapes the validator (an `AttributeError` or `TypeError` on a value of the wrong type).
   */
  datatype Verdict = Valid | Invalid(message: string) | Raises

  const BodyRequired := "Request body is required"

  /** A request body the schemas are given: a dict, or None. */
  predicate Body(data: Value)
  {
    data.Null? || data.Obj?
  }

  /** `[f for f in required if f not in data]`. */
  function Missing(data: Value, required: seq<string>): (r: seq<string>)
    ensures |r| <= |required|
  {
    if required == [] then []
    else (if Has(data, required[0]) then [] else [required[0]]) + Missing(data, required[1..])
  }

  /** A field is reported missing exactly when it is required and the body lacks it. */
  lemma {:induction false} MissingMembers(data: Value, required: seq<string>, f: string)
    ensures f in Missing(data, required) <==> f in required && !Has(data, f)
  {
    if required != [] {
      MissingMembers(data, required[1..], f);
      assert required == [required[0]] + required[1..];
    }
  }

  /** Nothing is missing exactly when every required field is present. */
  lemma MissingNone(data: Value, required: seq<string>)
    ensures Missing(data, required) == [] <==> forall i :: 0 <= i < |required| ==> Has(data, required[i])
  {
    if Missing(data, required) != [] {
      var f := Missing(data, required)[0];
      MissingMembers(data, required, f);
    } else {
      forall i | 0 <= i < |required| ensures Has(data, required[i]) {
        MissingMembers(data, required, required[i]);
      }
    }
  }

  /**
   * The missing fields are reported in the order the schema lists them: the fields missing
   * from a list joined from two parts are those missing from the first part, then those
   * missing from the second.
   */
  lemma {:induction false} MissingAppend(data: Value, a: seq<string>, b: seq<string>)
    ensures Missing(data, a + b) == Missing(data, a) + Missing(data, b)
  {
    if a == [] {
      assert a + b == b;
    } else {
      assert (a + b)[0] == a[0] && (a + b)[1..] == a[1..] + b;
      var head := if Has(data, a[0]) then [] else [a[0]];
      var x, y := Missing(data, a[1..]), Missing(data, b);
      MissingAppend(data, a[1..], b);
      assert Missing(data, a + b) == head + (x + y);
      assert Missing(data, a) == head + x;
      assert head + (x + y) == (head + x) + y;
    }
  }

  function MissingMessage(missing: seq<string>): string
  {
    "Missing required fields: " + Text.Join(missing, ", ")
  }

  /** A text value that is not blank after `strip()`. */
  predicate NonBlankText(v: Value)
  {
    v.Str? && Text.Strip(v.s) != []
  }

  /**
   * `str(v).strip()` is empty. Only a text can be blank: the `str` of a number, a boolean,
   * a non-empty list or a non-empty dict always has a visible character.
   */
  predicate BlankAsText(v: Value)
  {
    v.Str? && Text.Strip(v.s) == []
  }
}
