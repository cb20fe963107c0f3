/**
  SC.Validator.String (frameworks/foundation/validators/string.js): accepts a
  field value only when its length lies within the optional bounds.
  A `None` bound is a `null` property, which imposes no constraint.
*/
module StringValidator {
  import opened Wrappers

  /** The value `field.get('fieldValue')` can return, as far as `validate` looks at it. */
  datatype FieldValue =
    | Absent            // null or undefined
    | Text(s: string)   // a value with a `length` (a string)
    | Unsized           // a value whose `length` is null or undefined (a number, a plain object)

  /** What `validate` can do besides answering YES or NO. */
  datatype JsError = TypeError   // reading `length` of null/undefined

  /** A bound is met when it is absent or the length is on the right side of it. */
  predicate WithinMax(len: nat, maxLength: Option<int>)
  {
    maxLength.None? || len <= maxLength.value
  }

  predicate WithinMin(len: nat, minLength: Option<int>)
  {
    minLength.None? || len >= minLength.value
  }

  /** JavaScript's `if (!s) s = ""` for a string that may be null, undefined or empty. */
  function OrEmpty(s: Option<string>): string
  {
    if s.None? then "" else s.value
  }

  /** The text the field would hold once `charStr` is appended to it. */
  function Typed(text: Option<string>, charStr: Option<string>): (t: string)
    ensures |t| == |OrEmpty(text)| + |OrEmpty(charStr)|
    ensures t[..|OrEmpty(text)|] == OrEmpty(text)
    ensures t[|OrEmpty(text)|..] == OrEmpty(charStr)
  {
    OrEmpty(text) + OrEmpty(charStr)
  }

  /** The validator's configuration: its `minLength` and `maxLength` properties. */
  datatype Validator = Validator(minLength: Option<int>, maxLength: Option<int>)
  {
    /**
      `validate(form, field)`: NO for a missing value when a maximum is set; a
      TypeError for a missing value when no maximum is set (the code then reads
      `value.length`); otherwise YES exactly when the length meets both bounds,
      and YES for a value without a length.
    */
    function Validate(value: FieldValue): (r: Result<bool, JsError>)
      ensures r.Failure? <==> value.Absent? && maxLength.None?
      ensures value.Absent? && maxLength.Some? ==> r == Success(false)
      ensures value.Unsized? ==> r == Success(true)
      ensures value.Text? ==>
        (r == Success(true) <==> WithinMax(|value.s|, maxLength) && WithinMin(|value.s|, minLength))
      ensures value.Text? ==> r.Success?
    {
      if value.Absent? && maxLength.Some? then Success(false)
      else if value.Absent? then Failure(TypeError)
      else if value.Text? then
        if maxLength.Some? && |value.s| > maxLength.value then Success(false)
        else if minLength.Some? && |value.s| < minLength.value then Success(false)
        else Success(true)
      else Success(true)
    }

    /**
      `validateKeyDown(form, field, charStr)`: `text` is what the input element
      currently holds. YES unless a maximum is set and appending the typed
      characters would make the text longer than it.
    */
    function ValidateKeyDown(text: Option<string>, charStr: Option<string>): (r: bool)
      ensures maxLength.None? ==> r
      ensures !r <==> maxLength.Some? && |OrEmpty(text)| + |OrEmpty(charStr)| > maxLength.value
    {
      var t := Typed(text, charStr);
      if maxLength.None? then true
      else if |t| > maxLength.value then false
      else true
    }
  }

  /** `validateKeyDown` never looks at `minLength`. */
  lemma KeyDownIgnoresMin(v: Validator, min: Option<int>, text: Option<string>, charStr: Option<string>)
    ensures Validator(min, v.maxLength).ValidateKeyDown(text, charStr) == v.ValidateKeyDown(text, charStr)
  {
  }

  /**
    A keystroke is allowed exactly when the text it produces would pass the
    maximum-length check of `validate`.
  */
  lemma KeyDownAgreesWithValidate(v: Validator, text: Option<string>, charStr: Option<string>)
    ensures v.ValidateKeyDown(text, charStr)
        <==> Validator(None, v.maxLength).Validate(Text(Typed(text, charStr))) == Success(true)
  {
  }

  /** Loosening either bound never turns an accepted value into a rejected one. */
  lemma ValidateMonotone(v: Validator, w: Validator, value: FieldValue)
    requires v.Validate(value) == Success(true)
    requires w.minLength.None? || (v.minLength.Some? && w.minLength.value <= v.minLength.value)
    requires w.maxLength.None? || (v.maxLength.Some? && w.maxLength.value >= v.maxLength.value)
    ensures w.Validate(value) == Success(true)
  {
  }
}
