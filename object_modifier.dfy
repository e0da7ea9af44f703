/** The handle a validator gets on the record being validated and on its own field. */
module Modifier {
  import opened Js
  import opened Inbuilt

  class ObjectModifier {
    /** The record under validation, shared with the engine, not a copy. */
    const data: JsObject
    /** The path of the field being validated. */
    const path: string

    constructor(data: JsObject, param: string)
      ensures this.data == data && this.path == param
    {
      this.data := data;
      this.path := param;
    }

    /** `get(p, d)`: the value lodash `get` finds at the path, or `d` when it finds undefined. */
    function Get(p: Value, default: Value): (v: Value)
      reads data
      ensures LodashGet(data.props, p) == Undef ==> v == default
      ensures LodashGet(data.props, p) != Undef ==> v == LodashGet(data.props, p)
    {
      var found := LodashGet(data.props, p);
      if found.Undef? then default else found
    }

    predicate Has(p: string)
      reads data
    {
      PathHas(data.props, SplitPath(p))
    }

    /** `set(p, value)`: writes through the shared record and returns it. */
    method Set(p: string, value: Value) returns (r: JsObject)
      modifies data
      ensures r == data
      ensures data.props == PathSet(old(data.props), SplitPath(p), value)
    {
      data.props := PathSet(data.props, SplitPath(p), value);
      r := data;
    }

    /** `setThis(value)`: `set` on the modifier's own path. */
    method SetThis(value: Value) returns (r: JsObject)
      modifies data
      ensures r == data
      ensures data.props == PathSet(old(data.props), SplitPath(path), value)
      ensures PathGet(Obj(data.props), SplitPath(path)) == value
      ensures !HasDotNotation(path) ==> forall k | k != path :: Js.Get(data.props, k) == Js.Get(old(data.props), k)
    {
      r := Set(path, value);
      PathSetGet(old(data.props), SplitPath(path), value);
      if !HasDotNotation(path) {
        FlatPath(path);
        forall k | k != path
          ensures Js.Get(data.props, k) == Js.Get(old(data.props), k)
        {
          PathSetOthers(old(data.props), path, value, k);
        }
      }
    }

    /** `unset(p)`: removes the path from the shared record. */
    method Unset(p: string) returns (removed: bool)
      modifies data
      ensures data.props == PathUnset(old(data.props), SplitPath(p))
      ensures !Has(p)
      ensures removed
    {
      data.props := PathUnset(data.props, SplitPath(p));
      PathUnsetHas(old(data.props), SplitPath(p));
      removed := true;
    }

    /** `unsetThis()`: `unset` on the modifier's own path. */
    method UnsetThis() returns (removed: bool)
      modifies data
      ensures data.props == PathUnset(old(data.props), SplitPath(path))
      ensures !Has(path)
      ensures removed
    {
      removed := Unset(path);
    }

    /** `getPath()`: the start-cased path. */
    function GetPath(startCase: string -> string): string
    {
      startCase(path)
    }
  }
}
