/** Type predicates: `isType`, `assertType` and `arrayIsTypeOf`. */
module TypesChecker {
  import opened Js
  import opened Results

  /** The `type` argument: one type name, or a list of them. */
  datatype TypeSpec = One(name: string) | AnyOf(names: seq<Value>)

  /** `${type}` in a message. */
  function SpecString(types: TypeSpec): string
  {
    match types
    case One(t) => t
    case AnyOf(names) => ToJsString(Arr(names))
  }

  /** `isType(option, type)`. */
  function IsType(option: Value, types: TypeSpec): (r: bool)
    ensures types == One("array") ==> (r <==> option.Arr?)
    ensures types.One? && types.name != "array" ==> (r <==> TypeOf(option) == types.name)
    ensures types.AnyOf? && Str("array") !in types.names ==> (r <==> Str(TypeOf(option)) in types.names)
    ensures types.AnyOf? && Str("array") in types.names ==> (r <==> Str(TypeOf(option)) in types.names || option.Arr?)
  {
    match types
    case One(t) =>
      if t == "array" && option.Arr? then true else TypeOf(option) == t
    case AnyOf(names) =>
      var hasArrayInTypes := Str("array") in names;
      if !hasArrayInTypes && Str(TypeOf(option)) in names then true
      else hasArrayInTypes && (Str(TypeOf(option)) in names || option.Arr?)
  }

  function AssertMessage(option: Value, types: TypeSpec, name: string): string
  {
    name + " must be typeof [" + SpecString(types) + "], but [" + TypeOf(option) + "] was given."
  }

  /** `assertType(option, type, name)`: true, or a TypeError naming `name`, the types and the actual type. */
  function AssertType(option: Value, types: TypeSpec, name: string): (r: Outcome<bool>)
    ensures r.Normal? <==> IsType(option, types)
    ensures r.Normal? ==> r.value
    ensures r.Abrupt? ==> r.ex == Exception(TypeError, AssertMessage(option, types, name))
  {
    if !IsType(option, types) then Abrupt(Exception(TypeError, AssertMessage(option, types, name)))
    else Normal(true)
  }

  /** A single type name stands for the list holding it. */
  function AsList(types: TypeSpec): (r: TypeSpec)
    ensures r.AnyOf?
  {
    match types
    case One(t) => AnyOf([Str(t)])
    case AnyOf(_) => types
  }

  /** No element fails `assertType` (the `some` loop stops at the first one that does). */
  function NoneFails(arr: seq<Value>, types: TypeSpec): bool
  {
    if arr == [] then true
    else AssertType(arr[0], types, "Options").Normal? && NoneFails(arr[1..], types)
  }

  /** `arrayIsTypeOf(arr, types)`. */
  function ArrayIsTypeOf(arr: seq<Value>, types: TypeSpec): bool
  {
    var list := AsList(types);
    if |arr| == 0 then true else NoneFails(arr, list)
  }

  lemma {:induction false} NoneFailsSpec(arr: seq<Value>, types: TypeSpec)
    ensures NoneFails(arr, types) <==> forall i | 0 <= i < |arr| :: IsType(arr[i], types)
  {
    if arr != [] {
      NoneFailsSpec(arr[1..], types);
      assert forall i | 0 <= i < |arr| - 1 :: arr[1..][i] == arr[i + 1];
    }
  }

  /** An empty array passes; otherwise every element must be of one of the types. */
  lemma ArrayIsTypeOfSpec(arr: seq<Value>, types: TypeSpec)
    ensures |arr| == 0 ==> ArrayIsTypeOf(arr, types)
    ensures ArrayIsTypeOf(arr, types) <==> forall i | 0 <= i < |arr| :: IsType(arr[i], AsList(types))
  {
    NoneFailsSpec(arr, AsList(types));
  }

  /** Wrapping a single type name in a list does not change what it accepts. */
  lemma AsListSame(option: Value, types: TypeSpec)
    ensures IsType(option, AsList(types)) == IsType(option, types)
  {
  }
}
