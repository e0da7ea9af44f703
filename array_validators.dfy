/** The array validators: array, arraySize, inArray, notInArray and arrayValues. */
module ArrayValidators {
  import opened Js
  import opened Results
  import opened AbolishErrors
  import opened TypesChecker
  import opened Host
  import opened Effects
  import opened Inbuilt
  import opened Modifier
  import Functions
  import JsStr

  const ArrayError := ":param is not a valid array!"
  const InArrayError := ":param does not exists in the given array"
  const NotInArrayError := ":param is not allowed"
  const ArrayValuesError := ":param array values does not match the expected types"

  /** A string option names one type, an array option lists several. */
  function OptionTypes(option: Value): (t: TypeSpec)
    requires option.Str? || option.Arr?
    ensures option.Str? ==> t == One(option.s)
    ensures option.Arr? ==> t == AnyOf(option.items)
  {
    if option.Str? then One(option.s) else AnyOf(option.items)
  }

  /** `array`: checks the value is an array and, for a string or list option, the type of every element. */
  function ArrayCheck(value: Value, option: Value): (r: Verdict)
    ensures option == Bool(false) ==> r.Pass?
    ensures option != Bool(false) && !value.Arr? ==> r.Fail?
    ensures option != Bool(false) && value.Arr? && (option.Str? || option.Arr?) ==>
      (r.Pass? <==> forall i | 0 <= i < |value.items| :: IsType(value.items[i], AsList(OptionTypes(option))))
    ensures option != Bool(false) && value.Arr? && (option.Str? || option.Arr?) && !r.Pass? ==>
      r == Custom(NewError(":param array values must be of type: [" + ToJsString(option) + "]", Undef))
    ensures option != Bool(false) && value.Arr? && !option.Str? && !option.Arr? ==> r.Pass?
  {
    if option == Bool(false) then Pass
    else if !value.Arr? then Fail
    else if option.Str? || option.Arr? then
      ArrayIsTypeOfSpec(value.items, OptionTypes(option));
      if ArrayIsTypeOf(value.items, OptionTypes(option)) then Pass
      else Custom(NewError(":param array values must be of type: [" + ToJsString(option) + "]", Undef))
    else Pass
  }

  /**
   * `value.length`: reading it from undefined or null throws; a function's is its
   * parameter count, an object's its `length` property, and booleans and numbers give undefined.
   */
  function LengthOf(env: Env, value: Value): (r: Outcome<Value>)
    ensures r.Abrupt? <==> value.Undef? || value.Null?
    ensures value.Arr? ==> r == Normal(Num(|value.items|))
    ensures value.Fn? ==> r == Normal(Num(Arity(env, value.f)))
    ensures value.Bool? || value.Num? ==> r == Normal(Undef)
    ensures value.Str? ==> r.Normal? && r.value.Num? && |value.s| <= r.value.n <= 2 * |value.s|
    ensures value.Str? && (forall k | 0 <= k < |value.s| :: value.s[k] as int <= 0xFFFF) ==> r == Normal(Num(|value.s|))
  {
    match value
    case Undef => Abrupt(Exception(TypeError, "Cannot read properties of undefined (reading 'length')"))
    case Null => Abrupt(Exception(TypeError, "Cannot read properties of null (reading 'length')"))
    case Str(s) => Normal(Num(JsStr.Utf16Length(s)))
    case Arr(items) => Normal(Num(|items|))
    case Obj(props) => Normal(Get(props, "length"))
    case Fn(f) => Normal(Num(Arity(env, f)))
    case _ => Normal(Undef)
  }

  const SizeTypes := AnyOf([Str("number"), Str("array")])

  /** `arraySize`: the length must equal a number option or be listed in an array option. */
  function ArraySize(env: Env, value: Value, size: Value): (r: Verdict)
    ensures !size.Num? && !size.Arr? ==> r == Throw(Exception(TypeError, AssertMessage(size, SizeTypes, "Options")))
    ensures (size.Num? || size.Arr?) && value.Arr? && size.Num? ==> (r.Pass? <==> |value.items| == size.n)
    ensures (size.Num? || size.Arr?) && value.Arr? && size.Arr? ==> (r.Pass? <==> Num(|value.items|) in size.items)
    ensures (size.Num? || size.Arr?) && value.Arr? && !r.Pass? ==>
      r == Custom(NewError(":param array length must be [" + ToJsString(size) + "], but ["
                           + NatToString(|value.items|) + "] was given.", Undef))
    ensures (size.Num? || size.Arr?) && value.Fn? ==>
      (r.Pass? <==> (if size.Num? then Arity(env, value.f) == size.n else Num(Arity(env, value.f)) in size.items))
    ensures !r.Fail? && !r.Undefined?
  {
    var asserted := AssertType(size, SizeTypes, "Options");
    if asserted.Abrupt? then Throw(asserted.ex)
    else
      var length := LengthOf(env, value);
      if length.Abrupt? then Throw(length.ex)
      else
        var arrLen := length.value;
        if size.Num? && arrLen == size then Pass
        else if size.Arr? && arrLen in size.items then Pass
        else Custom(NewError(":param array length must be [" + ToJsString(size) + "], but ["
                             + ToJsString(arrLen) + "] was given.", Undef))
  }

  const ListTypes := AnyOf([Str("array"), Str("function")])

  /** The list a function or array option stands for, or the verdict the function decides on its own. */
  datatype Candidates = List(items: seq<Value>) | Decided(v: Verdict)

  /**
   * `inArray`'s reading of its option. A function is called with the value: a boolean result
   * decides, an array result becomes the list, and anything else leaves the function itself,
   * whose indices up to its parameter count all read undefined.
   */
  function InArrayCandidates(env: Env, value: Value, option: Value): (c: Candidates)
    ensures option.Arr? ==> c == List(option.items)
    ensures !option.Arr? && !option.Fn? ==> c == Decided(Throw(Exception(TypeError, AssertMessage(option, ListTypes, "Options"))))
    ensures option.Fn? && Apply(env, option.f, [value]).Returned? ==>
      var res := Apply(env, option.f, [value]).v;
      !res.Bool? && !res.Arr? ==> c.List? && |c.items| == Arity(env, option.f) && forall x | x in c.items :: x == Undef
  {
    var err := NewError(InArrayError, Undef);
    if AssertType(option, ListTypes, "Options").Abrupt? then
      Decided(Throw(AssertType(option, ListTypes, "Options").ex))
    else if option.Fn? then
      match Apply(env, option.f, [value])
      case Threw(ex) => Decided(Throw(ex))
      case Returned(res) =>
        if res.Bool? then Decided(if res.b then Pass else Custom(err))
        else if res.Arr? then List(res.items)
        else List(seq(Arity(env, option.f), _ => Undef))
    else List(option.items)
  }

  /** `inArray`: passes iff the value is one of the listed elements. */
  function InArraySpec(env: Env, value: Value, option: Value): (r: Verdict)
  {
    match InArrayCandidates(env, value, option)
    case Decided(v) => v
    case List(items) => if value in items then Pass else Custom(NewError(InArrayError, Undef))
  }

  /**
   * A function option whose result is neither a boolean nor an array: only an undefined
   * value passes, and only when the function declares a parameter.
   */
  lemma InArrayFunctionArity(env: Env, value: Value, option: Value)
    requires option.Fn? && Apply(env, option.f, [value]).Returned?
    requires !Apply(env, option.f, [value]).v.Bool? && !Apply(env, option.f, [value]).v.Arr?
    ensures InArraySpec(env, value, option).Pass? <==> value.Undef? && Arity(env, option.f) > 0
    ensures !InArraySpec(env, value, option).Pass? ==> InArraySpec(env, value, option) == Custom(NewError(InArrayError, Undef))
  {
    var c := InArrayCandidates(env, value, option);
    if value.Undef? && Arity(env, option.f) > 0 {
      assert c.items[0] == Undef;
    }
  }

  method InArray(env: Env, value: Value, option: Value) returns (r: Verdict)
    ensures r == InArraySpec(env, value, option)
    ensures option.Arr? ==> (r.Pass? <==> value in option.items)
    ensures option.Arr? && value !in option.items ==> r == Custom(NewError(InArrayError, Undef))
  {
    var candidates := InArrayCandidates(env, value, option);
    if candidates.Decided? {
      return candidates.v;
    }
    var list := candidates.items;
    for i := 0 to |list|
      invariant value !in list[..i]
    {
      if list[i] == value {
        return Pass;
      }
      assert list[..i + 1] == list[..i] + [list[i]];
    }
    assert list[..|list|] == list;
    r := Custom(NewError(InArrayError, Undef));
  }

  /**
   * `notInArray`'s reading of its option: a boolean result of a function option decides,
   * an array result becomes the list, and anything else throws.
   */
  function NotInArrayCandidates(env: Env, value: Value, option: Value): (c: Candidates)
    ensures option.Arr? ==> c == List(option.items)
    ensures !option.Arr? && !option.Fn? ==> c == Decided(Throw(Exception(TypeError, AssertMessage(option, ListTypes, "Options"))))
  {
    if AssertType(option, ListTypes, "Options").Abrupt? then
      Decided(Throw(AssertType(option, ListTypes, "Options").ex))
    else if option.Fn? then
      match Apply(env, option.f, [value])
      case Threw(ex) => Decided(Throw(ex))
      case Returned(res) =>
        if res.Bool? then Decided(FromBool(res.b))
        else if res.Arr? then List(res.items)
        else Decided(Throw(Exception(Error, "The result of [notInArray] function must be a boolean or an array")))
    else List(option.items)
  }

  /** `notInArray`: fails iff the value is one of the listed elements. */
  function NotInArraySpec(env: Env, value: Value, option: Value): (r: Verdict)
  {
    match NotInArrayCandidates(env, value, option)
    case Decided(v) => v
    case List(items) => if value in items then Fail else Pass
  }

  method NotInArray(env: Env, value: Value, option: Value) returns (r: Verdict)
    ensures r == NotInArraySpec(env, value, option)
    ensures option.Arr? ==> (r.Fail? <==> value in option.items) && (r.Pass? || r.Fail?)
  {
    var candidates := NotInArrayCandidates(env, value, option);
    if candidates.Decided? {
      return candidates.v;
    }
    var list := candidates.items;
    for i := 0 to |list|
      invariant value !in list[..i]
    {
      if list[i] == value {
        return Fail;
      }
      assert list[..i + 1] == list[..i] + [list[i]];
    }
    assert list[..|list|] == list;
    r := Pass;
  }

  const RuleTypes := AnyOf([Str("string"), Str("array"), Str("object")])

  /** The rule a nested check receives: string and array rules are merged with `Rule`, objects spread. */
  function NestedRule(num: NumberParser, rule: Value): Record
  {
    if rule.Str? || rule.Arr? then Functions.RuleOf(num, rule) else OwnProps(rule)
  }

  /** `{$name: "arrayValues[i]", ...rule}`: the element's name comes first, the rule may override it. */
  function ElementRule(props: Record, i: nat): Value
  {
    Obj(Assign([Prop("$name", Str("arrayValues[" + NatToString(i) + "]"))], props))
  }

  /** How the element checks end: with the first failing element's error, or with every validated element. */
  datatype Elements = ElementFailed(e: ValidationError) | ElementsPassed(validated: seq<Value>)

  /** The checks of `items[i..]`, in index order, after `acc` has collected the validated `items[..i]`. */
  function ElementsFrom(check: CheckFn, items: seq<Value>, props: Record, i: nat, acc: seq<Value>): Outcome<Elements>
    requires i <= |items|
    decreases |items| - i
  {
    if i == |items| then Normal(ElementsPassed(acc))
    else
      match check(items[i], ElementRule(props, i))
      case Abrupt(ex) => Abrupt(ex)
      case Normal(res) =>
        if res.error.Some? then Normal(ElementFailed(res.error.value))
        else ElementsFrom(check, items, props, i + 1, acc + [res.validated])
  }

  /** `arrayValues`: every element checked against the rule; on success the field is replaced by the validated elements. */
  function ArrayValuesSpec(check: CheckFn, num: NumberParser, arr: Value, rule: Value, path: string): Effect
  {
    var first := AssertType(arr, One("array"), "arrayValues values");
    var second := AssertType(rule, RuleTypes, "Options");
    if first.Abrupt? then Only(Throw(first.ex))
    else if second.Abrupt? then Only(Throw(second.ex))
    else
      match ElementsFrom(check, arr.items, NestedRule(num, rule), 0, [])
      case Abrupt(ex) => Only(Throw(ex))
      case Normal(ElementFailed(e)) => Only(Custom(NewError(e.message, ErrorValue(e))))
      case Normal(ElementsPassed(vs)) => Effect(Undefined, WriteAt(SplitPath(path), Arr(vs)))
  }

  method ArrayValues(check: CheckFn, num: NumberParser, arr: Value, rule: Value, modifier: ObjectModifier)
      returns (r: Verdict)
    modifies modifier.data
    ensures r == ArrayValuesSpec(check, num, arr, rule, modifier.path).verdict
    ensures modifier.data.props == ApplyWrite(old(modifier.data.props), ArrayValuesSpec(check, num, arr, rule, modifier.path).write)
  {
    var first := AssertType(arr, One("array"), "arrayValues values");
    if first.Abrupt? {
      return Throw(first.ex);
    }
    var second := AssertType(rule, RuleTypes, "Options");
    if second.Abrupt? {
      return Throw(second.ex);
    }
    var props: Record;
    if rule.Str? || rule.Arr? {
      props := Functions.Rule(num, rule);
    } else {
      props := OwnProps(rule);
    }
    var items := arr.items;
    var newArray: seq<Value> := [];
    for i := 0 to |items|
      invariant ElementsFrom(check, items, props, 0, []) == ElementsFrom(check, items, props, i, newArray)
    {
      var result := check(items[i], ElementRule(props, i));
      if result.Abrupt? {
        return Throw(result.ex);
      }
      if result.value.error.Some? {
        var err := result.value.error.value;
        return Custom(NewError(err.message, ErrorValue(err)));
      }
      newArray := newArray + [result.value.validated];
    }
    var _ := modifier.SetThis(Arr(newArray));
    r := Undefined;
  }

  // Properties

  /** The elements are checked in order; when all pass, each validated element is the one its check returned. */
  lemma {:induction false} ElementsPassedSpec(check: CheckFn, items: seq<Value>, props: Record, i: nat, acc: seq<Value>)
    requires i <= |items|
    requires ElementsFrom(check, items, props, i, acc).Normal?
    requires ElementsFrom(check, items, props, i, acc).value.ElementsPassed?
    decreases |items| - i
    ensures var vs := ElementsFrom(check, items, props, i, acc).value.validated;
      |vs| == |acc| + |items| - i && vs[..|acc|] == acc
      && forall j | i <= j < |items| ::
           check(items[j], ElementRule(props, j)) == Normal(Success(vs[|acc| + j - i]))
  {
    if i < |items| {
      var res := check(items[i], ElementRule(props, i)).value;
      var acc' := acc + [res.validated];
      ElementsPassedSpec(check, items, props, i + 1, acc');
      var vs := ElementsFrom(check, items, props, i, acc).value.validated;
      assert vs[..|acc'|] == acc';
      assert vs[..|acc|] == acc by { assert vs[..|acc|] == acc'[..|acc|]; }
      assert vs[|acc|] == res.validated by { assert vs[|acc|] == acc'[|acc|]; }
    }
  }

  /** A failure is the first failing element's: every element before it passed its check. */
  lemma {:induction false} ElementFailedSpec(check: CheckFn, items: seq<Value>, props: Record, i: nat, acc: seq<Value>)
      returns (j: nat)
    requires i <= |items|
    requires ElementsFrom(check, items, props, i, acc).Normal?
    requires ElementsFrom(check, items, props, i, acc).value.ElementFailed?
    decreases |items| - i
    ensures i <= j < |items|
    ensures check(items[j], ElementRule(props, j)).Normal?
    ensures check(items[j], ElementRule(props, j)).value.error == Some(ElementsFrom(check, items, props, i, acc).value.e)
    ensures forall k | i <= k < j :: check(items[k], ElementRule(props, k)).Normal?
                                     && check(items[k], ElementRule(props, k)).value.error.None?
  {
    var res := check(items[i], ElementRule(props, i)).value;
    if res.error.Some? {
      j := i;
    } else {
      j := ElementFailedSpec(check, items, props, i + 1, acc + [res.validated]);
    }
  }

  /** With every element passing, `arrayValues` writes an array of the same length and passes. */
  lemma ArrayValuesWrites(check: CheckFn, num: NumberParser, arr: Value, rule: Value, path: string)
    requires arr.Arr? && (rule.Str? || rule.Arr? || rule.Obj? || rule.Null?)
    requires forall i | 0 <= i < |arr.items| :: check(arr.items[i], ElementRule(NestedRule(num, rule), i)).Normal?
                                                && check(arr.items[i], ElementRule(NestedRule(num, rule), i)).value.error.None?
    ensures ArrayValuesSpec(check, num, arr, rule, path).verdict == Undefined
    ensures ArrayValuesSpec(check, num, arr, rule, path).write.WriteAt?
    ensures |ArrayValuesSpec(check, num, arr, rule, path).write.v.items| == |arr.items|
  {
    var props := NestedRule(num, rule);
    var out := ElementsFrom(check, arr.items, props, 0, []);
    if out.Abrupt? || out.value.ElementFailed? {
      AllPassNoFailure(check, arr.items, props, 0, []);
    } else {
      ElementsPassedSpec(check, arr.items, props, 0, []);
    }
  }

  lemma {:induction false} AllPassNoFailure(check: CheckFn, items: seq<Value>, props: Record, i: nat, acc: seq<Value>)
    requires i <= |items|
    requires forall k | i <= k < |items| :: check(items[k], ElementRule(props, k)).Normal?
                                           && check(items[k], ElementRule(props, k)).value.error.None?
    decreases |items| - i
    ensures ElementsFrom(check, items, props, i, acc).Normal?
    ensures ElementsFrom(check, items, props, i, acc).value.ElementsPassed?
  {
    if i < |items| {
      AllPassNoFailure(check, items, props, i + 1, acc + [check(items[i], ElementRule(props, i)).value.validated]);
    }
  }
}
