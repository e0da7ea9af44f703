/**
 * The built-in validators every instance sees: must, typeof, exact, min, max,
 * minLength, maxLength, selectMin and selectMax. Each is a plain function of
 * the value and the rule option.
 */
module GlobalValidators {
  import opened Js
  import opened JsStr
  import opened Results

  /**
   * `Number(v)`: None stands for NaN. Strings go through the runtime's parser,
   * arrays through their string form, objects and functions are NaN.
   */
  function ToNumber(num: NumberParser, v: Value): (n: Option<int>)
    ensures v.Undef? ==> n.None?
    ensures v.Null? ==> n == Some(0)
    ensures v.Num? ==> n == Some(v.n)
    ensures v.Str? && AllDigits(v.s) ==> n == Some(DecimalValue(v.s))
  {
    match v
    case Undef => None
    case Null => Some(0)
    case Bool(b) => Some(if b then 1 else 0)
    case Num(n) => Some(n)
    case Str(s) => StrToNumber(num, s)
    case Arr(_) => StrToNumber(num, ToJsString(v))
    case Obj(_) => None
    case Fn(_) => None
  }

  /** `isNaN(v)`. */
  predicate IsNaN(num: NumberParser, v: Value)
  {
    ToNumber(num, v).None?
  }

  /** `must`: a falsy option passes; otherwise undefined, null, "" and [] fail. */
  function Must(value: Value, option: Value): (r: Verdict)
    ensures r.Pass? || r.Fail?
    ensures r.Fail? <==> Truthy(option) && (value.Undef? || value.Null? || value == Str("") || value == Arr([]))
  {
    if !Truthy(option) then Pass
    else if value.Undef? || value.Null? then Fail
    else if value.Str? then FromBool(|value.s| > 0)
    else if value.Arr? then FromBool(|value.items| > 0)
    else Pass
  }

  /** `typeof`: `false` turns it off; otherwise the option is lower-cased and compared with `typeof value`. */
  function TypeOfCheck(value: Value, option: Value): (r: Verdict)
    ensures r.Throw? <==> option != Bool(false) && !option.Str?
    ensures r.Throw? ==> r.ex.kind == TypeError
    ensures option == Bool(false) ==> r.Pass?
    ensures option.Str? && ToLower(option.s) == "array" ==> (r.Pass? <==> value.Arr?)
    ensures option.Str? && ToLower(option.s) != "array" ==> (r.Pass? <==> TypeOf(value) == ToLower(option.s))
    ensures !r.Undefined? && !r.Custom?
  {
    if option == Bool(false) then Pass
    else if option.Undef? || option.Null? then
      Throw(Exception(TypeError, "Cannot read properties of " + ToJsString(option) + " (reading 'toLowerCase')"))
    else if !option.Str? then Throw(Exception(TypeError, "option.toLowerCase is not a function"))
    else
      var lowered := ToLower(option.s);
      if lowered == "array" then FromBool(value.Arr?)
      else FromBool(TypeOf(value) == lowered)
  }

  /** `exact`: strict equality with the option. */
  function Exact(value: Value, option: Value): (r: Verdict)
    ensures r.Pass? <==> value == option
    ensures r.Pass? || r.Fail?
  {
    if value == option then Pass else Fail
  }

  /**
   * The length `minLength`/`maxLength` compare: strings are trimmed first and
   * then measured in UTF-16 code units.
   */
  function TrimmedLength(value: Value): (n: nat)
    requires value.Str? || value.Arr?
    ensures value.Arr? ==> n == |value.items|
    ensures value.Str? ==> |Trim(value.s)| <= n <= 2 * |Trim(value.s)| && |Trim(value.s)| <= |value.s|
  {
    if value.Str? then Utf16Length(Trim(value.s)) else |value.items|
  }

  /** `minLength`: only strings and arrays qualify; a NaN option compares false. */
  function MinLength(num: NumberParser, value: Value, option: Value): (r: Verdict)
    ensures r.Pass? || r.Fail?
    ensures r.Pass? <==> ((value.Str? || value.Arr?) && ToNumber(num, option).Some?
                          && TrimmedLength(value) >= ToNumber(num, option).value)
  {
    if !value.Str? && !value.Arr? then Fail
    else
      var bound := ToNumber(num, option);
      FromBool(bound.Some? && TrimmedLength(value) >= bound.value)
  }

  /** `maxLength`: only strings and arrays qualify; a NaN option compares false. */
  function MaxLength(num: NumberParser, value: Value, option: Value): (r: Verdict)
    ensures r.Pass? || r.Fail?
    ensures r.Pass? <==> ((value.Str? || value.Arr?) && ToNumber(num, option).Some?
                          && TrimmedLength(value) <= ToNumber(num, option).value)
  {
    if !value.Str? && !value.Arr? then Fail
    else
      var bound := ToNumber(num, option);
      FromBool(bound.Some? && TrimmedLength(value) <= bound.value)
  }

  /** `selectMin` answers exactly as `minLength`. */
  function SelectMin(num: NumberParser, value: Value, option: Value): (r: Verdict)
    ensures r.Pass? <==> ((value.Str? || value.Arr?) && ToNumber(num, option).Some?
                          && TrimmedLength(value) >= ToNumber(num, option).value)
    ensures r.Pass? || r.Fail?
  {
    MinLength(num, value, option)
  }

  /** `selectMax` answers exactly as `maxLength`. */
  function SelectMax(num: NumberParser, value: Value, option: Value): (r: Verdict)
    ensures r.Pass? <==> ((value.Str? || value.Arr?) && ToNumber(num, option).Some?
                          && TrimmedLength(value) <= ToNumber(num, option).value)
    ensures r.Pass? || r.Fail?
  {
    MaxLength(num, value, option)
  }

  /** `min`: non-numeric strings and arrays are measured by length; other values compare as numbers. */
  function Min(num: NumberParser, value: Value, option: Value): (r: Verdict)
    ensures (value.Str? && IsNaN(num, value)) || value.Arr? ==> r == MinLength(num, value, option)
    ensures !value.Str? && !value.Arr? && IsNaN(num, value) ==> r.Fail?
    ensures !value.Arr? && !IsNaN(num, value) ==>
      (r.Pass? <==> ToNumber(num, option).Some? && ToNumber(num, value).value >= ToNumber(num, option).value)
    ensures r.Pass? || r.Fail?
  {
    var notNumber := IsNaN(num, value);
    if (value.Str? && notNumber) || value.Arr? then MinLength(num, value, option)
    else if notNumber then Fail
    else
      var bound := ToNumber(num, option);
      FromBool(bound.Some? && ToNumber(num, value).value >= bound.value)
  }

  /** `max`: non-numeric strings and arrays are measured by length; other values compare as numbers. */
  function Max(num: NumberParser, value: Value, option: Value): (r: Verdict)
    ensures (value.Str? && IsNaN(num, value)) || value.Arr? ==> r == MaxLength(num, value, option)
    ensures !value.Str? && !value.Arr? && IsNaN(num, value) ==> r.Fail?
    ensures !value.Arr? && !IsNaN(num, value) ==>
      (r.Pass? <==> ToNumber(num, option).Some? && ToNumber(num, value).value <= ToNumber(num, option).value)
    ensures r.Pass? || r.Fail?
  {
    var notNumber := IsNaN(num, value);
    if (value.Str? && notNumber) || value.Arr? then MaxLength(num, value, option)
    else if notNumber then Fail
    else
      var bound := ToNumber(num, option);
      FromBool(bound.Some? && ToNumber(num, value).value <= bound.value)
  }

  // Error templates of the built-ins (`exact` has none)

  const MustError := ":param is required."
  const TypeOfError := ":param is not typeOf :option"
  const MinError := ":param is too small. (Min. :option)"
  const MaxError := ":param is too big. (Max. :option)"
  const MinLengthError := ":param is too short. (Min. :option characters)"
  const MaxLengthError := ":param is too long. (Max. :option characters)"
  const SelectMinError := "Select at-least :option :param."
  const SelectMaxError := "Select at-most :option :param."

  // Properties

  /** Length bounds on one string or array: `minLength:n` and `maxLength:n` together pin the trimmed length. */
  lemma LengthWindow(num: NumberParser, value: Value, n: int)
    requires value.Str? || value.Arr?
    ensures MinLength(num, value, Num(n)).Pass? && MaxLength(num, value, Num(n)).Pass? <==> TrimmedLength(value) == n
  {
  }

  /** White space on either side does not count towards a string's length. */
  lemma SurroundingSpaceIgnored(num: NumberParser, w1: string, s: string, w2: string, option: Value)
    requires forall k | 0 <= k < |w1| :: IsWhitespace(w1[k])
    requires forall k | 0 <= k < |w2| :: IsWhitespace(w2[k])
    ensures MinLength(num, Str(w1 + s + w2), option) == MinLength(num, Str(s), option)
    ensures MaxLength(num, Str(w1 + s + w2), option) == MaxLength(num, Str(s), option)
  {
    var t := w1 + s + w2;
    TrimSurrounded(w1, s, w2);
    assert TrimmedLength(Str(t)) == TrimmedLength(Str(s));
  }

  /** A character outside the Basic Multilingual Plane is two code units long. */
  lemma AstralCountsTwice(num: NumberParser, c: char)
    requires c as int > 0xFFFF
    ensures MinLength(num, Str([c]), Num(2)).Pass?
    ensures !MaxLength(num, Str([c]), Num(1)).Pass?
  {
    assert !IsWhitespace(c);
    assert Trim([c]) == [c];
    assert Utf16Length([c]) == 2 by {
      assert [c][1..] == [];
    }
  }
}
