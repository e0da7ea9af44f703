/**
 * Schemas compiled ahead of time (`AbolishCompiled`). Each field keeps its
 * `$skip`, its `$name` and its validators in rule order, each validator with
 * the option its closure captured and a message formatted at compile time.
 * A run replays them on a shallow copy of the input.
 */
module Compiler {
  import opened Js
  import opened JsStr
  import opened Results
  import opened Host
  import opened Inbuilt
  import opened Registry
  import opened Modifier
  import Interpreter

  /**
   * One compiled validator. `option` is the visible property that
   * `setValidatorOption` writes; `bound` is the option the validator's closure
   * captured when it was built, and the one it runs with.
   */
  datatype CompiledValidator = CompiledValidator(
    name: string,
    option: Value,
    optionString: Option<string>,
    error: string,
    isAsync: bool,
    errorFn: Option<Value>,
    definition: Validator,
    bound: Value)

  /** A field's compiled rule: `$skip`, `$name` and its validators in rule order. */
  datatype CompiledRule = CompiledRule(skip: Option<Value>, name: Option<string>, validators: seq<CompiledValidator>)

  /** An entry of `data`: a field and its compiled rule. */
  datatype CompiledField = CompiledField(field: string, rule: CompiledRule)

  /** Everything a run reads from a compiled schema. */
  datatype CompiledSchema = CompiledSchema(
    data: seq<CompiledField>,
    fields: seq<string>,
    includedFields: Option<seq<string>>,
    allowedFields: Option<seq<string>>,
    dotted: bool,
    isObject: bool,
    isAsync: bool)

  const ObjectOnly := Exception(Error, "Variable compiled input cannot be used to validate an object, use object compiled input!")
  const SyncOnly := Exception(Error, "Rules contains an async validator, use validateObjectAsync instead!")
  const VariableOnly := Exception(Error, "Object compiled cannot be used to validate a variable, use regular compiled input!")
  const FieldNameRequired := Exception(Error, "Field name is required when using object compiled input!")
  const FieldNameRefused := Exception(Error, "Field name is not allowed when using variable compiled input!")

  /** The key a validator has in the array that holds it: "0", "1", ... */
  function IndexName(i: nat): string
  {
    NatToString(i)
  }

  /** The keys of `data`, in order. */
  function DataKeys(data: seq<CompiledField>): (ks: seq<string>)
    ensures |ks| == |data| && forall i | 0 <= i < |data| :: ks[i] == data[i].field
  {
    seq(|data|, i requires 0 <= i < |data| => data[i].field)
  }

  // The error of a failed validator

  /** What `:param` becomes in a compiled message: `$name` when it is not empty, otherwise the field. */
  function ParamOf(name: Option<string>, field: string): string
  {
    if name.Some? && name.value != "" then name.value else field
  }

  /**
   * `parseErrorMessage`: `false` reports the message formatted at compile time;
   * an `AbolishError` reports its own message, data and code, with the first
   * `:param` and `:option` filled in. `customError` is never set, so `errorFn`
   * is never called.
   */
  function ParseErrorMessage(field: string, value: Value, verdict: Verdict, v: CompiledValidator,
                             name: Option<string>): (e: ValidationError)
    requires Failed(verdict)
    ensures e.kind == ValidatorType && e.key == field && e.validator == v.name
    ensures verdict.Fail? ==> e.message == v.error && e.data == Null && e.code == "default"
    ensures verdict.Custom? ==> e.code == verdict.err.code && e.data == verdict.err.data
    ensures verdict.Custom? && !Contains(verdict.err.message, ":param") && !Contains(verdict.err.message, ":option") ==>
      e.message == verdict.err.message
  {
    if verdict.Fail? then ValidationError("default", field, ValidatorType, v.name, v.error, Null)
    else
      var m := verdict.err.message;
      var withParam := if Contains(m, ":param") then ReplaceFirst(m, ":param", ParamOf(name, field)) else m;
      var message :=
        if v.optionString.Some? && v.optionString.value != "" && Contains(withParam, ":option")
        then ReplaceFirst(withParam, ":option", v.optionString.value)
        else withParam;
      ValidationError(verdict.err.code, field, ValidatorType, v.name, message, verdict.err.data)
  }

  /**
   * An `AbolishError` message gets only its first `:param` filled: with
   * colon-free text around two of them, the second one is reported unchanged.
   */
  lemma CustomMessageKeepsSecondParam(field: string, value: Value, verdict: Verdict, v: CompiledValidator,
                                      name: Option<string>, a: string, b: string, c: string)
    requires verdict.Custom? && verdict.err.message == a + ":param" + b + ":param" + c
    requires Lacks(a, ':') && Lacks(b, ':') && Lacks(c, ':') && Lacks(ParamOf(name, field), ':')
    ensures ParseErrorMessage(field, value, verdict, v, name).message == a + ParamOf(name, field) + b + ":param" + c
  {
    var p := ParamOf(name, field);
    var m := verdict.err.message;
    OccurrenceAfter(a, ":param", b + ":param" + c);
    assert m == a + ":param" + (b + ":param" + c);
    SecondOccurrence(a, b, c, ":param", p);
    LacksAppend(a, p, ':');
    LacksAppend(a + p, b, ':');
    NoOptionAroundParam(a + p + b, c);
  }

  // One run

  /** How a field's validators end: the run goes on with the record they leave, or stops with a result. */
  datatype FieldEnd = Continue(validated: Record) | Halt(result: ValidationResult)

  /**
   * The validators of one field from the `i`-th on. They all get `value`, read
   * once before the first of them ran. A throw is reported under the
   * validator's index in a sync run and under its name in an async one.
   */
  function RunValidators(eng: Interpreter.Engine, depth: nat, asyncMode: bool, field: string, rule: CompiledRule,
                         value: Value, i: nat, validated: Record): (r: FieldEnd)
    requires i <= |rule.validators|
    ensures r.Halt? ==> r.result.error.Some? && r.result.validated == Obj([])
    decreases |rule.validators| - i
  {
    if i == |rule.validators| then Continue(validated)
    else
      var v := rule.validators[i];
      var (verdict, next) := Interpreter.RunValidator(eng, depth, v.definition, value, v.bound, validated, field, [field]);
      if verdict.Throw? then
        Halt(Failure(Interpreter.InternalError(eng.env, field, if asyncMode then v.name else IndexName(i), verdict.ex)))
      else if Failed(verdict) then Halt(Failure(ParseErrorMessage(field, value, verdict, v, rule.name)))
      else RunValidators(eng, depth, asyncMode, field, rule, value, i + 1, next)
  }

  /** Whether a field is skipped: a truthy `$skip`, called first when it is a function, whose result is truthy. */
  function Skipped(env: Env, rule: CompiledRule, value: Value, validated: Record): (r: Outcome<bool>)
    ensures rule.skip.None? || !Truthy(rule.skip.value) ==> r == Normal(false)
    ensures rule.skip.Some? && !rule.skip.value.Fn? ==> r == Normal(Truthy(rule.skip.value))
  {
    if rule.skip.None? || !Truthy(rule.skip.value) then Normal(false)
    else
      var s :- if rule.skip.value.Fn? then Called(Apply(env, rule.skip.value.f, [value, Obj(validated)])) else Normal(rule.skip.value);
      Normal(Truthy(s))
  }

  /** A run goes on with the record and the output keys, or has its result. */
  datatype Progress = Ongoing(validated: Record, fields: seq<string>) | Finished(result: ValidationResult)

  /** The output keys once `field` is skipped: it leaves them unless it is one of the included fields. */
  function DropSkipped(s: CompiledSchema, fields: seq<string>, field: string): (r: seq<string>)
    ensures forall k :: k in r <==> k in fields && (k != field || s.includedFields.None? || field in s.includedFields.value)
  {
    if s.includedFields.Some? && field !in s.includedFields.value then Interpreter.Without(fields, [field]) else fields
  }

  /** The entries of `data` from the `i`-th on; `fields` holds the output keys still to be picked. */
  function RunFields(eng: Interpreter.Engine, depth: nat, asyncMode: bool, s: CompiledSchema, i: nat,
                     validated: Record, fields: seq<string>): (r: Outcome<Progress>)
    requires i <= |s.data|
    ensures r.Normal? && r.value.Finished? ==> r.value.result.error.Some? && r.value.result.validated == Obj([])
    ensures r.Normal? && r.value.Ongoing? ==> forall k | k in r.value.fields :: k in fields
    ensures r.Normal? && r.value.Ongoing? ==>
      forall k | k in fields && (s.includedFields.None? || k in s.includedFields.value) :: k in r.value.fields
    decreases |s.data| - i
  {
    if i == |s.data| then Normal(Ongoing(validated, fields))
    else
      var entry := s.data[i];
      var value := AbolishGet(validated, entry.field, Some(s.dotted));
      var skip :- Skipped(eng.env, entry.rule, value, validated);
      if skip then RunFields(eng, depth, asyncMode, s, i + 1, validated, DropSkipped(s, fields, entry.field))
      else
        match RunValidators(eng, depth, asyncMode, entry.field, entry.rule, value, 0, validated)
        case Halt(res) => Normal(Finished(res))
        case Continue(next) => RunFields(eng, depth, asyncMode, s, i + 1, next, fields)
  }

  /**
   * The output: a single key is copied directly, several are picked (by path
   * for every key when some key is dotted), none gives `{}`.
   */
  function Project(validated: Record, fields: seq<string>, dotted: bool): (out: Record)
    ensures forall k :: HasKey(out, k) <==> k in fields
    ensures forall k | k in fields ::
      Get(out, k) == (if |fields| > 1 && dotted then AbolishGet(validated, k, None) else Get(validated, k))
  {
    if |fields| == 1 then [Prop(fields[0], Get(validated, fields[0]))]
    else if |fields| > 1 then
      var out := PickOf(validated, fields, Some(dotted));
      assert forall k :: (HasKey(out, k) <==> k in fields) && (k in fields ==> Get(out, k) == Picked(validated, k, dotted)) by {
        forall k
          ensures (HasKey(out, k) <==> k in fields) && (k in fields ==> Get(out, k) == Picked(validated, k, dotted))
        {
          PickFromSpec(validated, fields, dotted, k);
        }
      }
      out
    else []
  }

  /** The error a strict schema reports for keys it does not know. */
  function StrictError(unknown: seq<string>): (e: ValidationError)
    ensures e.code == "object.unknown" && e.kind == Internal && e.key == "$strict" && e.validator == "$strict"
    ensures e.data == Obj([Prop("unknown", Arr(seq(|unknown|, i requires 0 <= i < |unknown| => Str(unknown[i]))))])
  {
    ValidationError("object.unknown", "$strict", Internal, "$strict", "Data contains unknown fields!",
                    Obj([Prop("unknown", Arr(seq(|unknown|, i requires 0 <= i < |unknown| => Str(unknown[i]))))]))
  }

  /** A run once the guards have passed: the strict check, the fields, the output. */
  function RunChecked(eng: Interpreter.Engine, depth: nat, s: CompiledSchema, record: Record,
                      asyncMode: bool): (r: Outcome<ValidationResult>)
    ensures r.Normal? && r.value.error.Some? ==> r.value.validated == Obj([])
    ensures s.allowedFields.Some? && |Interpreter.Without(Keys(record), s.allowedFields.value)| > 0 ==>
      r == Normal(Failure(StrictError(Interpreter.Without(Keys(record), s.allowedFields.value))))
  {
    if s.allowedFields.Some? && |Interpreter.Without(Keys(record), s.allowedFields.value)| > 0 then
      Normal(Failure(StrictError(Interpreter.Without(Keys(record), s.allowedFields.value))))
    else
      var p :- RunFields(eng, depth, asyncMode, s, 0, record, s.fields);
      match p
      case Finished(res) => Normal(res)
      case Ongoing(validated, fields) => Normal(Success(Obj(Project(validated, fields, s.dotted))))
  }

  /** `validateObject` (sync) and `validateObjectAsync`: the guards, then the run. */
  function RunObject(eng: Interpreter.Engine, depth: nat, s: CompiledSchema, record: Record,
                     asyncMode: bool): (r: Outcome<ValidationResult>)
    ensures !s.isObject ==> r == Abrupt(ObjectOnly)
    ensures s.isObject && !asyncMode && s.isAsync ==> r == Abrupt(SyncOnly)
    ensures s.isObject && (asyncMode || !s.isAsync) ==> r == RunChecked(eng, depth, s, record, asyncMode)
  {
    if !s.isObject then Abrupt(ObjectOnly)
    else if !asyncMode && s.isAsync then Abrupt(SyncOnly)
    else RunChecked(eng, depth, s, record, asyncMode)
  }

  /** `validateVariable`: the value validated as `{variable}` and unwrapped again. */
  function RunVariable(eng: Interpreter.Engine, depth: nat, s: CompiledSchema, variable: Value,
                       asyncMode: bool): (r: Outcome<ValidationResult>)
    ensures s.isObject ==> r == Abrupt(VariableOnly)
    ensures r.Normal? && r.value.error.Some? ==> r.value.validated == Undef
  {
    if s.isObject then Abrupt(VariableOnly)
    else
      var res :- RunObject(eng, depth, s.(isObject := true), [Prop("variable", variable)], asyncMode);
      Normal(ValidationResult(res.error, Get(OwnProps(res.validated), "variable")))
  }

  // setValidatorOption

  /** The field `setValidatorOption` writes to, or what it throws. */
  function OptionTarget(isObject: bool, fieldName: Option<string>): (r: Outcome<string>)
    ensures (fieldName.None? || fieldName.value == "") ==> r == (if isObject then Abrupt(FieldNameRequired) else Normal("variable"))
    ensures fieldName.Some? && fieldName.value != "" ==> r == (if isObject then Normal(fieldName.value) else Abrupt(FieldNameRefused))
  {
    if fieldName.None? || fieldName.value == "" then
      if isObject then Abrupt(FieldNameRequired) else Normal("variable")
    else if !isObject then Abrupt(FieldNameRefused)
    else Normal(fieldName.value)
  }

  /** `validators[key].option = option` when the key exists; the keys are array indexes. */
  function SetIndexed(vs: seq<CompiledValidator>, key: string, option: Value): seq<CompiledValidator>
  {
    seq(|vs|, j requires 0 <= j < |vs| => if IndexName(j) == key then vs[j].(option := option) else vs[j])
  }

  /** `data[field].validators[key].option = option`, when both exist. */
  function SetOption(data: seq<CompiledField>, field: string, key: string, option: Value): seq<CompiledField>
  {
    seq(|data|, i requires 0 <= i < |data| =>
      if data[i].field == field then
        CompiledField(field, data[i].rule.(validators := SetIndexed(data[i].rule.validators, key, option)))
      else data[i])
  }

  /** Two compiled schemas that differ at most in the visible `option` of their validators. */
  predicate SameButOptions(a: CompiledSchema, b: CompiledSchema)
  {
    a.fields == b.fields && a.includedFields == b.includedFields && a.allowedFields == b.allowedFields &&
    a.dotted == b.dotted && a.isObject == b.isObject && a.isAsync == b.isAsync &&
    |a.data| == |b.data| &&
    forall i | 0 <= i < |a.data| :: SameRuleButOptions(a.data[i], b.data[i])
  }

  predicate SameRuleButOptions(a: CompiledField, b: CompiledField)
  {
    a.field == b.field && a.rule.skip == b.rule.skip && a.rule.name == b.rule.name &&
    |a.rule.validators| == |b.rule.validators| &&
    forall j | 0 <= j < |a.rule.validators| :: a.rule.validators[j] == b.rule.validators[j].(option := a.rule.validators[j].option)
  }

  // The class

  class AbolishCompiled {
    var data: seq<CompiledField>
    var fields: seq<string>
    var includedFields: Option<seq<string>>
    var allowedFields: Option<seq<string>>
    var fieldsHasDotNotation: bool
    var isObject: bool
    var isAsync: bool
    var input: Value
    /** The instance the validators were compiled with; nested checks run through it. */
    const engine: Interpreter.Engine

    constructor(input: Value, engine: Interpreter.Engine)
      ensures this.input == input && this.engine == engine
      ensures data == [] && fields == [] && includedFields.None? && allowedFields.None?
      ensures !fieldsHasDotNotation && isObject && !isAsync
    {
      this.input := input;
      this.engine := engine;
      data := [];
      fields := [];
      includedFields := None;
      allowedFields := None;
      fieldsHasDotNotation := false;
      isObject := true;
      isAsync := false;
    }

    function Schema(): CompiledSchema
      reads this
    {
      CompiledSchema(data, fields, includedFields, allowedFields, fieldsHasDotNotation, isObject, isAsync)
    }

    /** `validateObject(data)`. */
    method ValidateObject(record: Record) returns (r: Outcome<ValidationResult>)
      ensures r == RunObject(engine, engine.env.maxDepth, Schema(), record, false)
    {
      if !isObject {
        return Abrupt(ObjectOnly);
      }
      if isAsync {
        return Abrupt(SyncOnly);
      }
      r := Walk(record, false);
    }

    /** `validateObjectAsync(data)`; a throw rejects the promise. */
    method ValidateObjectAsync(record: Record) returns (r: Outcome<ValidationResult>)
      ensures r == RunObject(engine, engine.env.maxDepth, Schema(), record, true)
    {
      if !isObject {
        return Abrupt(ObjectOnly);
      }
      r := Walk(record, true);
    }

    /** The run both `validateObject` and `validateObjectAsync` make once their guards pass. */
    method Walk(record: Record, asyncMode: bool) returns (r: Outcome<ValidationResult>)
      ensures r == RunChecked(engine, engine.env.maxDepth, Schema(), record, asyncMode)
    {
      var depth := engine.env.maxDepth;
      var validated := new JsObject(record);
      if allowedFields.Some? {
        var unknown := Interpreter.Without(Keys(validated.props), allowedFields.value);
        if |unknown| > 0 {
          return Normal(Failure(StrictError(unknown)));
        }
      }
      var current := fields;
      var i := 0;
      while i < |data|
        invariant 0 <= i <= |data|
        invariant RunFields(engine, depth, asyncMode, Schema(), 0, record, fields)
               == RunFields(engine, depth, asyncMode, Schema(), i, validated.props, current)
        decreases |data| - i
      {
        var entry := data[i];
        var value := AbolishGet(validated.props, entry.field, Some(fieldsHasDotNotation));
        var skip := false;
        if entry.rule.skip.Some? && Truthy(entry.rule.skip.value) {
          var resolved := entry.rule.skip.value;
          if resolved.Fn? {
            var called := Apply(engine.env, resolved.f, [value, Obj(validated.props)]);
            if called.Threw? {
              return Abrupt(called.ex);
            }
            resolved := called.v;
          }
          skip := Truthy(resolved);
        }
        assert Skipped(engine.env, entry.rule, value, validated.props) == Normal(skip);
        if skip {
          current := DropSkipped(Schema(), current, entry.field);
        } else {
          var halted := RunEntry(entry, value, validated, asyncMode);
          if halted.Some? {
            return Normal(halted.value);
          }
        }
        i := i + 1;
      }
      var out: Record;
      if |current| == 1 {
        out := [Prop(current[0], Get(validated.props, current[0]))];
      } else if |current| > 1 {
        out := Pick(validated.props, current, Some(fieldsHasDotNotation));
      } else {
        out := [];
      }
      r := Normal(Success(Obj(out)));
    }

    /** The validators of one entry, each bound to the shared record through a modifier on the entry's field. */
    method RunEntry(entry: CompiledField, value: Value, validated: JsObject, asyncMode: bool)
      returns (halted: Option<ValidationResult>)
      modifies validated
      ensures match RunValidators(engine, engine.env.maxDepth, asyncMode, entry.field, entry.rule, value, 0, old(validated.props))
              case Halt(res) => halted == Some(res)
              case Continue(next) => halted.None? && validated.props == next
    {
      var depth := engine.env.maxDepth;
      var modifier := new ObjectModifier(validated, entry.field);
      var j := 0;
      while j < |entry.rule.validators|
        invariant 0 <= j <= |entry.rule.validators|
        invariant RunValidators(engine, depth, asyncMode, entry.field, entry.rule, value, 0, old(validated.props))
               == RunValidators(engine, depth, asyncMode, entry.field, entry.rule, value, j, validated.props)
        decreases |entry.rule.validators| - j
      {
        var v := entry.rule.validators[j];
        var verdict := Invoke(engine.env, Interpreter.NestedCheck(engine, depth), v.definition, value, v.bound, modifier, [entry.field]);
        if verdict.Throw? {
          return Some(Failure(Interpreter.InternalError(engine.env, entry.field, if asyncMode then v.name else IndexName(j), verdict.ex)));
        }
        if Failed(verdict) {
          return Some(Failure(ParseErrorMessage(entry.field, value, verdict, v, entry.rule.name)));
        }
        j := j + 1;
      }
      halted := None;
    }

    /**
     * `validateVariable(variable)`: the schema is switched to object mode for
     * the run and back afterwards, but a throw during the run leaves it in
     * object mode.
     */
    method ValidateVariable(variable: Value) returns (r: Outcome<ValidationResult>)
      modifies this
      ensures r == RunVariable(engine, engine.env.maxDepth, old(Schema()), variable, false)
      ensures isObject == (old(isObject) || r.Abrupt?)
      ensures Schema() == old(Schema()).(isObject := isObject) && input == old(input)
    {
      if isObject {
        return Abrupt(VariableOnly);
      }
      isObject := true;
      var res := ValidateObject([Prop("variable", variable)]);
      if res.Abrupt? {
        return res;
      }
      isObject := false;
      r := Normal(ValidationResult(res.value.error, Get(OwnProps(res.value.validated), "variable")));
    }

    /** `validateVariableAsync(variable)`. */
    method ValidateVariableAsync(variable: Value) returns (r: Outcome<ValidationResult>)
      modifies this
      ensures r == RunVariable(engine, engine.env.maxDepth, old(Schema()), variable, true)
      ensures isObject == (old(isObject) || r.Abrupt?)
      ensures Schema() == old(Schema()).(isObject := isObject) && input == old(input)
    {
      if isObject {
        return Abrupt(VariableOnly);
      }
      isObject := true;
      var res := ValidateObjectAsync([Prop("variable", variable)]);
      if res.Abrupt? {
        return res;
      }
      isObject := false;
      r := Normal(ValidationResult(res.value.error, Get(OwnProps(res.value.validated), "variable")));
    }

    /**
     * `validateVariable(variable)` as its own comments intend it: object mode
     * for the run only, switched back whether the run returns or throws.
     */
    method ValidateVariableRestoring(variable: Value) returns (r: Outcome<ValidationResult>)
      modifies this
      ensures r == RunVariable(engine, engine.env.maxDepth, old(Schema()), variable, false)
      ensures Schema() == old(Schema()) && input == old(input)
    {
      if isObject {
        return Abrupt(VariableOnly);
      }
      isObject := true;
      var res := ValidateObject([Prop("variable", variable)]);
      isObject := false;
      if res.Abrupt? {
        return res;
      }
      r := Normal(ValidationResult(res.value.error, Get(OwnProps(res.value.validated), "variable")));
    }

    /** `validateVariableAsync(variable)`, switched back to variable mode on a rejection too. */
    method ValidateVariableAsyncRestoring(variable: Value) returns (r: Outcome<ValidationResult>)
      modifies this
      ensures r == RunVariable(engine, engine.env.maxDepth, old(Schema()), variable, true)
      ensures Schema() == old(Schema()) && input == old(input)
    {
      if isObject {
        return Abrupt(VariableOnly);
      }
      isObject := true;
      var res := ValidateObjectAsync([Prop("variable", variable)]);
      isObject := false;
      if res.Abrupt? {
        return res;
      }
      r := Normal(ValidationResult(res.value.error, Get(OwnProps(res.value.validated), "variable")));
    }

    /**
     * `validate(value)`: an object schema validates the value's own properties,
     * a variable schema the value through `validateVariable`, so a throw on the
     * variable path leaves the schema in object mode.
     */
    method Validate(value: Value) returns (r: Outcome<ValidationResult>)
      modifies this
      ensures old(isObject) ==> r == RunObject(engine, engine.env.maxDepth, old(Schema()), OwnProps(value), false)
      ensures !old(isObject) ==> r == RunVariable(engine, engine.env.maxDepth, old(Schema()), value, false)
      ensures isObject == (old(isObject) || r.Abrupt?)
      ensures Schema() == old(Schema()).(isObject := isObject) && input == old(input)
    {
      if isObject {
        r := ValidateObject(OwnProps(value));
      } else {
        r := ValidateVariable(value);
      }
    }

    /** `validateAsync(value)`; a rejection on the variable path leaves the schema in object mode. */
    method ValidateAsync(value: Value) returns (r: Outcome<ValidationResult>)
      modifies this
      ensures old(isObject) ==> r == RunObject(engine, engine.env.maxDepth, old(Schema()), OwnProps(value), true)
      ensures !old(isObject) ==> r == RunVariable(engine, engine.env.maxDepth, old(Schema()), value, true)
      ensures isObject == (old(isObject) || r.Abrupt?)
      ensures Schema() == old(Schema()).(isObject := isObject) && input == old(input)
    {
      if isObject {
        r := ValidateObjectAsync(OwnProps(value));
      } else {
        r := ValidateVariableAsync(value);
      }
    }

    /**
     * `setValidatorOption(validatorName, option, fieldName)`: the field name is
     * required for an object schema and refused for a variable one, where it is
     * "variable". Only the `option` of an existing entry is written.
     */
    method SetValidatorOption(validatorName: string, option: Value, fieldName: Option<string>)
      returns (r: Outcome<AbolishCompiled>)
      modifies this
      ensures OptionTarget(isObject, fieldName).Abrupt? ==> r == Abrupt(OptionTarget(isObject, fieldName).ex) && data == old(data)
      ensures OptionTarget(isObject, fieldName).Normal? ==>
        r == Normal(this) && data == SetOption(old(data), OptionTarget(isObject, fieldName).value, validatorName, option)
      ensures SameButOptions(old(Schema()), Schema())
      ensures fields == old(fields) && includedFields == old(includedFields) && allowedFields == old(allowedFields)
      ensures fieldsHasDotNotation == old(fieldsHasDotNotation) && isObject == old(isObject) && isAsync == old(isAsync)
      ensures input == old(input)
    {
      var target := OptionTarget(isObject, fieldName);
      if target.Abrupt? {
        return Abrupt(target.ex);
      }
      SetOptionKeepsRest(data, target.value, validatorName, option);
      data := SetOption(data, target.value, validatorName, option);
      r := Normal(this);
    }

    /** `copy()`: a fresh compiled schema with equal contents and no `allowedFields`. */
    method Copy() returns (c: AbolishCompiled)
      ensures fresh(c)
      ensures c.Schema() == Schema().(allowedFields := None)
      ensures c.input == input && c.engine == engine
    {
      c := new AbolishCompiled(input, engine);
      c.fields := fields;
      c.includedFields := includedFields;
      c.fieldsHasDotNotation := fieldsHasDotNotation;
      c.isObject := isObject;
      c.isAsync := isAsync;
      var copied: seq<CompiledField> := [];
      for i := 0 to |data|
        invariant copied == data[..i]
      {
        var validators: seq<CompiledValidator> := [];
        for j := 0 to |data[i].rule.validators|
          invariant validators == data[i].rule.validators[..j]
        {
          validators := validators + [data[i].rule.validators[j]];
        }
        assert validators == data[i].rule.validators;
        copied := copied + [CompiledField(data[i].field, CompiledRule(data[i].rule.skip, data[i].rule.name, validators))];
      }
      assert copied == data;
      c.data := copied;
    }
  }

  // The variable-mode lock-out

  /**
   * As written: a variable schema holding an async validator throws on the
   * sync `validateVariable`, and the throw leaves it in object mode, so even
   * the right call, `validateVariableAsync`, is refused from then on.
   */
  method VariableLockOut(c: AbolishCompiled, first: Value, next: Value)
    returns (r1: Outcome<ValidationResult>, r2: Outcome<ValidationResult>)
    requires !c.isObject && c.isAsync
    modifies c
    ensures r1 == Abrupt(SyncOnly)
    ensures r2 == Abrupt(VariableOnly)
    ensures c.isObject
  {
    r1 := c.ValidateVariable(first);
    r2 := c.ValidateVariableAsync(next);
  }

  /**
   * Corrected: after the same throw the schema is still a variable schema and
   * `validateVariableAsync` runs as it would have on the untouched schema.
   */
  method VariableNoLockOut(c: AbolishCompiled, first: Value, next: Value)
    returns (r1: Outcome<ValidationResult>, r2: Outcome<ValidationResult>)
    requires !c.isObject && c.isAsync
    modifies c
    ensures r1 == Abrupt(SyncOnly)
    ensures r2 == RunVariable(c.engine, c.engine.env.maxDepth, old(c.Schema()), next, true)
    ensures c.Schema() == old(c.Schema())
  {
    r1 := c.ValidateVariableRestoring(first);
    r2 := c.ValidateVariableAsyncRestoring(next);
  }

  // Properties

  /** `setValidatorOption` writes only `option` fields; every other part of the schema is kept. */
  lemma SetOptionKeepsRest(data: seq<CompiledField>, field: string, key: string, option: Value)
    ensures |SetOption(data, field, key, option)| == |data|
    ensures forall i | 0 <= i < |data| :: SameRuleButOptions(data[i], SetOption(data, field, key, option)[i])
  {
  }

  /** Only an index key ("0", "1", ...) names a validator entry: a validator's name (`min`, `typeof`) changes nothing. */
  lemma {:induction false} NamesNeverMatch(data: seq<CompiledField>, field: string, key: string, option: Value)
    requires !AllDigits(key)
    ensures SetOption(data, field, key, option) == data
  {
    forall j: nat
      ensures IndexName(j) != key
    {
      IndexNameDigits(j);
    }
    forall i | 0 <= i < |data|
      ensures SetOption(data, field, key, option)[i] == data[i]
    {
      var vs := data[i].rule.validators;
      assert SetIndexed(vs, key, option) == vs;
    }
  }

  lemma {:induction false} IndexNameDigits(n: nat)
    ensures AllDigits(IndexName(n))
    decreases n
  {
    if n >= 10 {
      IndexNameDigits(n / 10);
    }
  }

  /** The validators of a field do the same whatever their visible options say: they run with the options they captured. */
  lemma {:induction false} ValidatorsIgnoreOption(eng: Interpreter.Engine, depth: nat, asyncMode: bool, a: CompiledField,
                                                  b: CompiledField, value: Value, i: nat, validated: Record)
    requires SameRuleButOptions(a, b)
    requires i <= |a.rule.validators|
    ensures RunValidators(eng, depth, asyncMode, a.field, a.rule, value, i, validated)
         == RunValidators(eng, depth, asyncMode, b.field, b.rule, value, i, validated)
    decreases |a.rule.validators| - i
  {
    if i < |a.rule.validators| {
      var v := a.rule.validators[i];
      var (verdict, next) := Interpreter.RunValidator(eng, depth, v.definition, value, v.bound, validated, a.field, [a.field]);
      if !verdict.Throw? && !Failed(verdict) {
        ValidatorsIgnoreOption(eng, depth, asyncMode, a, b, value, i + 1, next);
      }
    }
  }

  lemma {:induction false} FieldsIgnoreOption(eng: Interpreter.Engine, depth: nat, asyncMode: bool, a: CompiledSchema,
                                              b: CompiledSchema, i: nat, validated: Record, fields: seq<string>)
    requires SameButOptions(a, b)
    requires i <= |a.data|
    ensures RunFields(eng, depth, asyncMode, a, i, validated, fields) == RunFields(eng, depth, asyncMode, b, i, validated, fields)
    decreases |a.data| - i
  {
    if i < |a.data| {
      var entry := a.data[i];
      var value := AbolishGet(validated, entry.field, Some(a.dotted));
      ValidatorsIgnoreOption(eng, depth, asyncMode, entry, b.data[i], value, 0, validated);
      FieldsIgnoreOption(eng, depth, asyncMode, a, b, i + 1, validated, DropSkipped(a, fields, entry.field));
      match RunValidators(eng, depth, asyncMode, entry.field, entry.rule, value, 0, validated)
      case Halt(_) =>
      case Continue(next) => FieldsIgnoreOption(eng, depth, asyncMode, a, b, i + 1, next, fields);
      FieldIgnoresOption(eng, depth, asyncMode, a, b, i, validated, fields);
    }
  }

  /** One field runs alike on both schemas once its validators and the fields after it do. */
  lemma FieldIgnoresOption(eng: Interpreter.Engine, depth: nat, asyncMode: bool, a: CompiledSchema,
                           b: CompiledSchema, i: nat, validated: Record, fields: seq<string>)
    requires SameButOptions(a, b)
    requires i < |a.data|
    requires var value := AbolishGet(validated, a.data[i].field, Some(a.dotted));
      RunValidators(eng, depth, asyncMode, a.data[i].field, a.data[i].rule, value, 0, validated)
        == RunValidators(eng, depth, asyncMode, b.data[i].field, b.data[i].rule, value, 0, validated)
    requires RunFields(eng, depth, asyncMode, a, i + 1, validated, DropSkipped(a, fields, a.data[i].field))
          == RunFields(eng, depth, asyncMode, b, i + 1, validated, DropSkipped(a, fields, a.data[i].field))
    requires var value := AbolishGet(validated, a.data[i].field, Some(a.dotted));
      var run := RunValidators(eng, depth, asyncMode, a.data[i].field, a.data[i].rule, value, 0, validated);
      run.Continue? ==> RunFields(eng, depth, asyncMode, a, i + 1, run.validated, fields) == RunFields(eng, depth, asyncMode, b, i + 1, run.validated, fields)
    ensures RunFields(eng, depth, asyncMode, a, i, validated, fields) == RunFields(eng, depth, asyncMode, b, i, validated, fields)
  {
    assert SameRuleButOptions(a.data[i], b.data[i]);
    assert DropSkipped(a, fields, a.data[i].field) == DropSkipped(b, fields, b.data[i].field);
  }

  /** Hence `setValidatorOption` never changes what a compiled schema accepts or reports. */
  lemma OptionsNeverRead(eng: Interpreter.Engine, depth: nat, a: CompiledSchema, b: CompiledSchema,
                         record: Record, variable: Value, asyncMode: bool)
    requires SameButOptions(a, b)
    ensures RunObject(eng, depth, a, record, asyncMode) == RunObject(eng, depth, b, record, asyncMode)
    ensures RunVariable(eng, depth, a, variable, asyncMode) == RunVariable(eng, depth, b, variable, asyncMode)
  {
    FieldsIgnoreOption(eng, depth, asyncMode, a, b, 0, record, a.fields);
    var a' := a.(isObject := true);
    var b' := b.(isObject := true);
    assert SameButOptions(a', b');
    FieldsIgnoreOption(eng, depth, asyncMode, a', b', 0, [Prop("variable", variable)], a.fields);
  }

  /** A skipped field runs none of its validators and leaves the output keys only when it is not included. */
  lemma SkippedFieldRunsNothing(eng: Interpreter.Engine, depth: nat, asyncMode: bool, s: CompiledSchema, i: nat,
                                validated: Record, fields: seq<string>)
    requires i < |s.data|
    requires Skipped(eng.env, s.data[i].rule, AbolishGet(validated, s.data[i].field, Some(s.dotted)), validated) == Normal(true)
    ensures RunFields(eng, depth, asyncMode, s, i, validated, fields)
         == RunFields(eng, depth, asyncMode, s, i + 1, validated, DropSkipped(s, fields, s.data[i].field))
    ensures s.includedFields.Some? && s.data[i].field in s.includedFields.value ==> DropSkipped(s, fields, s.data[i].field) == fields
    ensures s.includedFields.Some? && s.data[i].field !in s.includedFields.value ==> s.data[i].field !in DropSkipped(s, fields, s.data[i].field)
  {
  }

  /** The first validator that fails or throws ends the field; validators after it do not matter. */
  lemma {:induction false} ValidatorsStopEarly(eng: Interpreter.Engine, depth: nat, asyncMode: bool, field: string,
                                               rule: CompiledRule, more: seq<CompiledValidator>, value: Value,
                                               i: nat, validated: Record)
    requires i <= |rule.validators|
    requires RunValidators(eng, depth, asyncMode, field, rule, value, i, validated).Halt?
    ensures RunValidators(eng, depth, asyncMode, field, rule.(validators := rule.validators + more), value, i, validated)
         == RunValidators(eng, depth, asyncMode, field, rule, value, i, validated)
    decreases |rule.validators| - i
  {
    var all := rule.(validators := rule.validators + more);
    assert all.validators[i] == rule.validators[i];
    var v := rule.validators[i];
    var (verdict, next) := Interpreter.RunValidator(eng, depth, v.definition, value, v.bound, validated, field, [field]);
    if !verdict.Throw? && !Failed(verdict) {
      ValidatorsStopEarly(eng, depth, asyncMode, field, rule, more, value, i + 1, next);
    }
  }

  /** Once a field ends the run (or it throws), entries after it do not matter. */
  lemma {:induction false} FieldsStopEarly(eng: Interpreter.Engine, depth: nat, asyncMode: bool, s: CompiledSchema,
                                           more: seq<CompiledField>, i: nat, validated: Record, fields: seq<string>)
    requires i <= |s.data|
    requires RunFields(eng, depth, asyncMode, s, i, validated, fields).Abrupt?
          || RunFields(eng, depth, asyncMode, s, i, validated, fields).value.Finished?
    ensures RunFields(eng, depth, asyncMode, s.(data := s.data + more), i, validated, fields)
         == RunFields(eng, depth, asyncMode, s, i, validated, fields)
    decreases |s.data| - i
  {
    var all := s.(data := s.data + more);
    assert all.data[i] == s.data[i];
    var entry := s.data[i];
    var value := AbolishGet(validated, entry.field, Some(s.dotted));
    var skip := Skipped(eng.env, entry.rule, value, validated);
    if skip.Normal? {
      if skip.value {
        FieldsStopEarly(eng, depth, asyncMode, s, more, i + 1, validated, DropSkipped(s, fields, entry.field));
      } else {
        match RunValidators(eng, depth, asyncMode, entry.field, entry.rule, value, 0, validated)
        case Halt(_) =>
        case Continue(next) => FieldsStopEarly(eng, depth, asyncMode, s, more, i + 1, next, fields);
      }
    }
  }

  /**
   * A throwing validator is reported as an internal error; a sync run names it
   * by its index in the field's validators, an async run by its name.
   */
  lemma ThrowNamesIndex(eng: Interpreter.Engine, depth: nat, asyncMode: bool, field: string, rule: CompiledRule,
                        value: Value, i: nat, validated: Record)
    requires i < |rule.validators|
    requires Interpreter.RunValidator(eng, depth, rule.validators[i].definition, value, rule.validators[i].bound,
                                      validated, field, [field]).0.Throw?
    ensures var r := RunValidators(eng, depth, asyncMode, field, rule, value, i, validated);
      var ex := Interpreter.RunValidator(eng, depth, rule.validators[i].definition, value, rule.validators[i].bound,
                                         validated, field, [field]).0.ex;
      r.Halt? && r.result.error.value.kind == Internal && r.result.error.value.key == field &&
      r.result.error.value.validator == (if asyncMode then rule.validators[i].name else IndexName(i)) &&
      r.result.error.value.message == ex.message && r.result.error.value.data == eng.env.stack(ex)
  {
  }

  /**
   * In a compiled run an `AbolishError` decides the message even when the field
   * has `$error`: the compiled message (where `$error` went) is ignored, and so
   * is `errorFn`.
   */
  lemma CustomErrorWins(field: string, value: Value, err: AbolishErrors.ErrorInfo, v: CompiledValidator,
                        name: Option<string>, template: string, errorFn: Option<Value>)
    ensures ParseErrorMessage(field, value, Custom(err), v, name)
         == ParseErrorMessage(field, value, Custom(err), v.(error := template, errorFn := errorFn), name)
  {
  }

  /** The same situation in the interpreted engine: a string `$error` beats the `AbolishError`'s message. */
  lemma InterpretedErrorWins(eng: Interpreter.Engine, s: Interpreter.FieldRule, rule: string, n: string, def: Validator,
                             option: Value, value: Value, err: AbolishErrors.ErrorInfo, asyncMode: bool)
    requires s.error.Some? && s.error.value.Str? && s.error.value.s != ""
    requires !Truthy(Interpreter.ErrorsEntry(s, n))
    ensures Interpreter.FailureMessage(eng, s, rule, n, def, option, value, Custom(err), asyncMode)
         == Normal(ValidationError(err.code, rule, ValidatorType, n,
                                   Interpreter.Fill(eng, s, rule, option, asyncMode, s.error.value.s), err.data))
  {
  }

  /** A schema with no strict list, no entries and no fields outputs `{}`. */
  lemma EmptySchemaOutput(eng: Interpreter.Engine, depth: nat, s: CompiledSchema, record: Record, asyncMode: bool)
    requires s.isObject && !s.isAsync && s.allowedFields.None? && s.data == [] && s.fields == []
    ensures RunObject(eng, depth, s, record, asyncMode) == Normal(Success(Obj([])))
  {
  }
}
