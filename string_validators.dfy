/** The `boolean` validator: accepts booleans and coerces "true"/"false" and 1/0 in place. */
module StringValidators {
  import opened Js
  import opened JsStr
  import opened Results
  import opened Effects
  import opened Inbuilt
  import opened Modifier

  const BooleanError := ":param is not a valid boolean"

  /** What `boolean` decides for a value, and the boolean it stores through `setThis`. */
  function BooleanSpec(value: Value, path: string): (e: Effect)
    ensures value.Bool? ==> e == Only(Pass)
    ensures e.verdict.Fail? <==> !(value.Bool? || value.Str? || value.Num?)
    ensures e.verdict.Pass? || e.verdict.Fail? || e.verdict.Undefined?
    ensures e.write.WriteAt? ==> e.verdict.Pass? && e.write.segs == SplitPath(path) && e.write.v.Bool?
    ensures value.Str? ==> (e.write == WriteAt(SplitPath(path), Bool(true)) <==> ToLower(value.s) == "true")
    ensures value.Str? ==> (e.write == WriteAt(SplitPath(path), Bool(false)) <==> ToLower(value.s) == "false")
    ensures value.Num? ==> (e.write == WriteAt(SplitPath(path), Bool(value.n == 1)) <==> value.n == 1 || value.n == 0)
    ensures (value.Str? || value.Num?) && e.write.NoWrite? ==> e.verdict.Undefined?
  {
    match value
    case Bool(_) => Only(Pass)
    case Str(s) =>
      var lowered := ToLower(s);
      if lowered == "true" then Effect(Pass, WriteAt(SplitPath(path), Bool(true)))
      else if lowered == "false" then Effect(Pass, WriteAt(SplitPath(path), Bool(false)))
      else Only(Undefined)
    case Num(n) =>
      if n == 1 then Effect(Pass, WriteAt(SplitPath(path), Bool(true)))
      else if n == 0 then Effect(Pass, WriteAt(SplitPath(path), Bool(false)))
      else Only(Undefined)
    case _ => Only(Fail)
  }

  method Boolean(value: Value, modifier: ObjectModifier) returns (r: Verdict)
    modifies modifier.data
    ensures r == BooleanSpec(value, modifier.path).verdict
    ensures modifier.data.props == ApplyWrite(old(modifier.data.props), BooleanSpec(value, modifier.path).write)
  {
    if value.Bool? {
      return Pass;
    } else if value.Str? {
      var str := ToLower(value.s);
      if str == "true" {
        var _ := modifier.SetThis(Bool(true));
        return Pass;
      } else if str == "false" {
        var _ := modifier.SetThis(Bool(false));
        return Pass;
      }
    } else if value.Num? {
      if value.n == 1 {
        var _ := modifier.SetThis(Bool(true));
        return Pass;
      } else if value.n == 0 {
        var _ := modifier.SetThis(Bool(false));
        return Pass;
      }
    } else {
      return Fail;
    }
    r := Undefined;
  }

  /** The coerced value is itself a boolean: validating it again passes and writes nothing. */
  lemma BooleanIdempotent(value: Value, path: string)
    requires BooleanSpec(value, path).write.WriteAt?
    ensures BooleanSpec(BooleanSpec(value, path).write.v, path) == Only(Pass)
  {
  }

  /** After a coercion the field reads back as the stored boolean. */
  lemma BooleanStored(r: Record, value: Value, path: string)
    requires BooleanSpec(value, path).write.WriteAt?
    ensures PathGet(Obj(ApplyWrite(r, BooleanSpec(value, path).write)), SplitPath(path)) == BooleanSpec(value, path).write.v
  {
    PathSetGet(r, SplitPath(path), BooleanSpec(value, path).write.v);
  }
}
