/**
 * `Abolish.compileObject` and `Abolish.compile`: a schema turned into an
 * `AbolishCompiled` ahead of time. Every validator is looked up once, its
 * message formatted once, and a definition without a template gets the
 * default one written into the registry it came from.
 */
module SchemaCompiler {
  import opened Js
  import opened JsStr
  import opened Results
  import opened Host
  import opened Inbuilt
  import opened Registry
  import opened TypesChecker
  import Interpreter
  import RuleStrings
  import Functions
  import JsRecords
  import Compiler
  import AbolishInstance

  /** The two registries a compilation reads and writes templates into. */
  datatype Registries = Registries(instance: Validators, globals: Validators)

  /** The registries as an instance sees them. */
  function Regs(a: AbolishInstance.Abolish): Registries
    reads a, a.globals
  {
    Registries(a.validators, a.globals.validators)
  }

  // First pass: wildcard and `$include`

  /**
   * The first pass over the schema's entries: the last `*` or `$` entry (a
   * string is parsed) and the last `$include` entry, as given.
   */
  function Prescan(num: NumberParser, schema: Record, keys: seq<string>, i: nat, wildcard: Value, includes: Value): (r: (Value, Value))
    requires i <= |keys|
    ensures (forall j | i <= j < |keys| :: keys[j] != "*" && keys[j] != "$") ==> r.0 == wildcard
    ensures (forall j | i <= j < |keys| :: keys[j] != "$include") ==> r.1 == includes
    decreases |keys| - i
  {
    if i == |keys| then (wildcard, includes)
    else
      var k := keys[i];
      var rules := Get(schema, k);
      if k == "*" || k == "$" then
        Prescan(num, schema, keys, i + 1, if rules.Str? then Obj(RuleStrings.ParseRuleString(num, rules.s)) else rules, includes)
      else if k == "$include" then Prescan(num, schema, keys, i + 1, wildcard, rules)
      else Prescan(num, schema, keys, i + 1, wildcard, includes)
  }

  // A field's rules

  /**
   * A field's rules as entries: a string is parsed, an array merged, and a
   * truthy wildcard spread under them. Without a wildcard, `undefined` and
   * `null` cannot be enumerated and throw.
   */
  function ParsedRules(num: NumberParser, wildcard: Value, rules: Value): (r: Outcome<Record>)
    ensures r.Abrupt? <==> !Truthy(wildcard) && (rules.Undef? || rules.Null?)
    ensures r.Abrupt? ==> r.ex == Exception(TypeError, "Cannot convert undefined or null to object")
    ensures !Truthy(wildcard) && rules.Obj? ==> r == Normal(rules.props)
    ensures Truthy(wildcard) && rules.Obj? ==> r == Normal(Assign(OwnProps(wildcard), rules.props))
    ensures Truthy(wildcard) && (rules.Undef? || rules.Null?) ==> r == Normal(OwnProps(wildcard))
  {
    var parsed :=
      if rules.Str? then Obj(RuleStrings.ParseRuleString(num, rules.s))
      else if rules.Arr? then Obj(Functions.RuleOf(num, rules))
      else rules;
    if Truthy(wildcard) then Normal(Assign(OwnProps(wildcard), OwnProps(parsed)))
    else if parsed.Undef? || parsed.Null? then Abrupt(Exception(TypeError, "Cannot convert undefined or null to object"))
    else Normal(OwnProps(parsed))
  }

  /** What the super rules of a field set: `$name`, `$skip`, `$error` and `$errors` (an empty object by default). */
  datatype Supers = Supers(name: Option<string>, skip: Option<Value>, error: Value, errors: Value)

  const NoSupers := Supers(None, None, Undef, Obj([]))

  /** One entry of the super pass: a super rule is type-checked and recorded, anything else ignored. */
  function SuperStep(s: Supers, k: string, option: Value): (r: Outcome<Supers>)
    ensures k !in Interpreter.RuleSuperKeys ==> r == Normal(s)
    ensures k == "$name" ==> (r.Normal? <==> option.Str?)
    ensures k == "$skip" ==> (r.Normal? <==> option.Bool? || option.Fn?)
    ensures k == "$error" ==> (r.Normal? <==> option.Str? || option.Fn?)
    ensures k == "$errors" ==> (r.Normal? <==> TypeOf(option) == "object")
    ensures r.Normal? && k == "$name" ==> r.value == s.(name := Some(option.s))
    ensures r.Normal? && k == "$skip" ==> r.value == s.(skip := Some(option))
    ensures r.Normal? && k == "$error" ==> r.value == s.(error := option)
    ensures r.Normal? && k == "$errors" ==> r.value == s.(errors := option)
  {
    if k == "$name" then
      var _ :- AssertType(option, AnyOf([Str("string")]), "$name");
      Normal(s.(name := Some(option.s)))
    else if k == "$skip" then
      var _ :- AssertType(option, AnyOf([Str("boolean"), Str("function")]), "$skip");
      Normal(s.(skip := Some(option)))
    else if k == "$error" then
      var _ :- AssertType(option, AnyOf([Str("string"), Str("function")]), "$error");
      Normal(s.(error := option))
    else if k == "$errors" then
      var _ :- AssertType(option, AnyOf([Str("object")]), "$errors");
      Normal(s.(errors := option))
    else Normal(s)
  }

  /** The super pass over a field's entries from the `i`-th on. */
  function SupersFrom(parsed: Record, keys: seq<string>, i: nat, s: Supers): Outcome<Supers>
    requires i <= |keys|
    decreases |keys| - i
  {
    if i == |keys| then Normal(s)
    else
      var next :- SuperStep(s, keys[i], Get(parsed, keys[i]));
      SupersFrom(parsed, keys, i + 1, next)
  }

  /** `$name`, defaulting to the start-cased field when it is missing or empty and the instance asks for it. */
  function NameFor(env: Env, useStartCase: bool, s: Supers, field: string): (name: Option<string>)
    ensures s.name.Some? && s.name.value != "" ==> name == s.name
    ensures (s.name.None? || s.name.value == "") && useStartCase ==> name == Some(env.startCase(field))
    ensures !useStartCase ==> name == s.name
  {
    if (s.name.None? || s.name.value == "") && useStartCase then Some(StartCase(env.startCase, field, None))
    else s.name
  }

  // One validator

  /** `$errors[n]`. */
  function ErrorsEntry(s: Supers, n: string): Value
  {
    Get(OwnProps(s.errors), n)
  }

  /** The message template a validator compiles with: a string `$errors[n]`, else a string `$error`, else its own. */
  function TemplateFor(s: Supers, n: string, own: string): (m: string)
    ensures Truthy(ErrorsEntry(s, n)) && ErrorsEntry(s, n).Str? ==> m == ErrorsEntry(s, n).s
    ensures !(Truthy(ErrorsEntry(s, n)) && ErrorsEntry(s, n).Str?) && Truthy(s.error) && s.error.Str? ==> m == s.error.s
    ensures !(Truthy(ErrorsEntry(s, n)) && ErrorsEntry(s, n).Str?) && !(Truthy(s.error) && s.error.Str?) ==> m == own
  {
    var fromError := if Truthy(s.error) && s.error.Str? then s.error.s else own;
    var entry := ErrorsEntry(s, n);
    if Truthy(entry) && entry.Str? then entry.s else fromError
  }

  /** The message function a validator compiles with: a function `$errors[n]`, else a function `$error`. */
  function ErrorFnFor(s: Supers, n: string): (f: Option<Value>)
    ensures f.Some? ==> f.value.Fn?
    ensures ErrorsEntry(s, n).Fn? ==> f == Some(ErrorsEntry(s, n))
    ensures !ErrorsEntry(s, n).Fn? && s.error.Fn? ==> f == Some(s.error)
    ensures !ErrorsEntry(s, n).Fn? && !s.error.Fn? ==> f.None?
  {
    var fromError := if s.error.Fn? then Some(s.error) else None;
    var entry := ErrorsEntry(s, n);
    if entry.Fn? then Some(entry) else fromError
  }

  /** Options whose string form fills `:option`: strings, numbers, booleans and arrays. */
  predicate OptionStringAble(option: Value)
  {
    option.Str? || option.Num? || option.Bool? || option.Arr?
  }

  /** A compiled validator and the registries after its definition got its template. */
  datatype Made = Made(regs: Registries, v: Compiler.CompiledValidator)

  /**
   * Compiling validator `n` of `field` with `option`: looked up in the
   * instance, then globally; given the default template in place when it has
   * none; its message chosen and `:param` and `:option` filled in everywhere.
   */
  function CompileValidator(regs: Registries, field: string, s: Supers, name: Option<string>, n: string,
                            option: Value): (r: Outcome<Made>)
    ensures r.Abrupt? <==> Resolve(regs.instance, regs.globals, n).None?
    ensures r.Abrupt? ==> r.ex == Exception(Error, "Validator " + n + " not found")
    ensures r.Normal? ==> r.value.v.name == n && r.value.v.option == option && r.value.v.bound == option
    ensures r.Normal? ==> r.value.v.definition == WithDefaultError(Resolve(regs.instance, regs.globals, n).value)
    ensures r.Normal? ==> r.value.v.isAsync == r.value.v.definition.isAsync
    ensures r.Normal? ==> (r.value.v.optionString.Some? <==> OptionStringAble(option))
    ensures r.Normal? ==> r.value.v.errorFn == ErrorFnFor(s, n)
  {
    var found := Resolve(regs.instance, regs.globals, n);
    if found.None? then Abrupt(Exception(Error, "Validator " + n + " not found"))
    else
      var def := WithDefaultError(found.value);
      var regs' := if n in regs.instance then regs.(instance := regs.instance[n := def])
                   else regs.(globals := regs.globals[n := def]);
      var withParam := ReplaceAll(TemplateFor(s, n, def.error.value), ":param", Compiler.ParamOf(name, field));
      var optionString := if OptionStringAble(option) then Some(ToJsString(option)) else None;
      var error := if optionString.Some? then ReplaceAll(withParam, ":option", optionString.value) else withParam;
      Normal(Made(regs', Compiler.CompiledValidator(n, option, optionString, error, def.isAsync, ErrorFnFor(s, n), def, option)))
  }

  /**
   * A compiled template has every `:param` filled, unlike the interpreted
   * engine which fills only the first: with colon-free text around two of them
   * and a colon-free name, both become the name.
   */
  lemma CompiledTemplateFillsEveryParam(regs: Registries, field: string, s: Supers, name: Option<string>, n: string,
                                        option: Value, a: string, b: string, c: string)
    requires Resolve(regs.instance, regs.globals, n).Some?
    requires TemplateFor(s, n, WithDefaultError(Resolve(regs.instance, regs.globals, n).value).error.value)
          == a + ":param" + b + ":param" + c
    requires Lacks(a, ':') && Lacks(b, ':') && Lacks(c, ':') && Lacks(Compiler.ParamOf(name, field), ':')
    ensures CompileValidator(regs, field, s, name, n, option).value.v.error
         == a + Compiler.ParamOf(name, field) + b + Compiler.ParamOf(name, field) + c
  {
    var p := Compiler.ParamOf(name, field);
    SecondOccurrence(a, b, c, ":param", p);
    var filled := a + p + b + p + c;
    LacksAppend(a, p, ':');
    LacksAppend(a + p, b, ':');
    LacksAppend(a + p + b, p, ':');
    LacksAppend(a + p + b + p, c, ':');
    LacksNoMatch(filled, ":option");
  }

  /** A field's validators so far, the registries, and whether an async one was met. */
  datatype Building = Building(regs: Registries, validators: seq<Compiler.CompiledValidator>, isAsync: bool)

  /** The validator pass of a field ends with what was built, and the exception that stopped it, if any. */
  datatype Built = Built(b: Building, failure: Option<Exception>)

  /** The validator pass over a field's entries from the `i`-th on; the super rules are passed over. */
  function ValidatorsFrom(field: string, parsed: Record, keys: seq<string>, i: nat, s: Supers, name: Option<string>,
                          b: Building): Built
    requires i <= |keys|
    decreases |keys| - i
  {
    if i == |keys| then Built(b, None)
    else if keys[i] in Interpreter.RuleSuperKeys then ValidatorsFrom(field, parsed, keys, i + 1, s, name, b)
    else
      match CompileValidator(b.regs, field, s, name, keys[i], Get(parsed, keys[i]))
      case Abrupt(ex) => Built(b, Some(ex))
      case Normal(m) =>
        ValidatorsFrom(field, parsed, keys, i + 1, s, name, Building(m.regs, b.validators + [m.v], b.isAsync || m.v.isAsync))
  }

  // The fields

  /** The compiled fields so far, the registries, and whether an async validator was met. */
  datatype Compiling = Compiling(regs: Registries, data: seq<Compiler.CompiledField>, isAsync: bool)

  /** A stage ends with what was compiled, and the exception that stopped it, if any. */
  datatype Stage = Stage(st: Compiling, failure: Option<Exception>)

  /** One field: its rules parsed, its super rules read, its validators compiled. */
  function FieldStep(env: Env, useStartCase: bool, wildcard: Value, schema: Record, field: string, st: Compiling): (r: Stage)
    ensures r.failure.Some? ==> r.st.data == st.data && r.st.isAsync == st.isAsync
    ensures r.failure.None? ==> |r.st.data| == |st.data| + 1 && r.st.data[..|st.data|] == st.data && r.st.data[|st.data|].field == field
  {
    match ParsedRules(env.num, wildcard, Get(schema, field))
    case Abrupt(ex) => Stage(st, Some(ex))
    case Normal(parsed) =>
      match SupersFrom(parsed, Keys(parsed), 0, NoSupers)
      case Abrupt(ex) => Stage(st, Some(ex))
      case Normal(s) =>
        var name := NameFor(env, useStartCase, s, field);
        var built := ValidatorsFrom(field, parsed, Keys(parsed), 0, s, name, Building(st.regs, [], st.isAsync));
        if built.failure.Some? then Stage(st.(regs := built.b.regs), built.failure)
        else
          var rule := Compiler.CompiledRule(s.skip, name, built.b.validators);
          Stage(Compiling(built.b.regs, st.data + [Compiler.CompiledField(field, rule)], built.b.isAsync), None)
  }

  /** The second pass over the schema's entries from the `i`-th on; `*`, `$` and `$include` are passed over. */
  function FieldsFrom(env: Env, useStartCase: bool, wildcard: Value, schema: Record, keys: seq<string>, i: nat,
                      st: Compiling): Stage
    requires i <= |keys|
    decreases |keys| - i
  {
    if i == |keys| then Stage(st, None)
    else if keys[i] in Interpreter.FieldSuperKeys then FieldsFrom(env, useStartCase, wildcard, schema, keys, i + 1, st)
    else
      var step := FieldStep(env, useStartCase, wildcard, schema, keys[i], st);
      if step.failure.Some? then step
      else FieldsFrom(env, useStartCase, wildcard, schema, keys, i + 1, step.st)
  }

  /** `more` appended to `fields`, each entry only when not there yet. */
  function AddNew(fields: seq<string>, more: seq<string>): (r: seq<string>)
    decreases |more|
  {
    if more == [] then fields
    else AddNew(if more[0] in fields then fields else fields + [more[0]], more[1..])
  }

  /** What `includeFields.forEach` throws when `$include` is not an array. */
  function ForEachError(includes: Value): Exception
  {
    if includes.Undef? || includes.Null? then Exception(TypeError, "Cannot read properties of " + ToJsString(includes) + " (reading 'forEach')")
    else Exception(TypeError, "includeFields.forEach is not a function")
  }

  /** The `$include` entries, by their string form. */
  function IncludedNames(items: seq<Value>): (names: seq<string>)
    ensures |names| == |items|
  {
    seq(|items|, i requires 0 <= i < |items| => ToJsString(items[i]))
  }

  /** A compilation leaves the registries it wrote templates into, and the schema or the exception. */
  datatype Compilation = Compilation(regs: Registries, result: Outcome<Compiler.CompiledSchema>)

  /** `compileObject(schema)` with an instance whose state is `eng`. */
  function CompileSchema(eng: Interpreter.Engine, schema: Record): Compilation
  {
    var keys := Keys(schema);
    var (wildcard, includes) := Prescan(eng.env.num, schema, keys, 0, Undef, Arr([]));
    var stage := FieldsFrom(eng.env, eng.useStartCase, wildcard, schema, keys, 0,
                            Compiling(Registries(eng.validators, eng.globals), [], false));
    if stage.failure.Some? then Compilation(stage.st.regs, Abrupt(stage.failure.value))
    else if !includes.Arr? then Compilation(stage.st.regs, Abrupt(ForEachError(includes)))
    else
      var included := IncludedNames(includes.items);
      var fields := AddNew(AddNew([], Compiler.DataKeys(stage.st.data)), included);
      Compilation(stage.st.regs, Normal(Compiler.CompiledSchema(stage.st.data, fields, Some(included), None,
                                                                AnyDotted(fields), true, stage.st.isAsync)))
  }

  /** The schema `compile(rule)` compiles: the normalised rule under "variable", which is always included. */
  function VariableSchema(num: NumberParser, rule: Value): Record
  {
    [Prop("variable", Obj(Functions.RuleOf(num, rule))), Prop("$include", Arr([Str("variable")]))]
  }

  // The methods

  /** The first pass over the schema. */
  method PrescanSchema(num: NumberParser, schema: Record) returns (wildcard: Value, includes: Value)
    ensures (wildcard, includes) == Prescan(num, schema, Keys(schema), 0, Undef, Arr([]))
  {
    var keys := Keys(schema);
    wildcard, includes := Undef, Arr([]);
    for i := 0 to |keys|
      invariant Prescan(num, schema, keys, 0, Undef, Arr([])) == Prescan(num, schema, keys, i, wildcard, includes)
    {
      var field := keys[i];
      var rules := Get(schema, field);
      if field == "*" || field == "$" {
        wildcard := rules;
        if rules.Str? {
          var parsed := RuleStrings.StringToRules(num, rules.s);
          wildcard := Obj(parsed);
        }
      } else if field == "$include" {
        includes := rules;
      }
    }
  }

  /** A field's rules as entries. */
  method ParseRules(num: NumberParser, wildcard: Value, rules: Value) returns (r: Outcome<Record>)
    ensures r == ParsedRules(num, wildcard, rules)
  {
    var parsed := rules;
    if rules.Str? {
      var generated := RuleStrings.StringToRules(num, rules.s);
      parsed := Obj(generated);
    } else if rules.Arr? {
      var generated := Functions.Rule(num, rules);
      parsed := Obj(generated);
    }
    if Truthy(wildcard) {
      return Normal(Assign(OwnProps(wildcard), OwnProps(parsed)));
    }
    if parsed.Undef? || parsed.Null? {
      return Abrupt(Exception(TypeError, "Cannot convert undefined or null to object"));
    }
    r := Normal(OwnProps(parsed));
  }

  /** The super pass over a field's entries. */
  method ReadSupers(parsed: Record) returns (r: Outcome<Supers>)
    ensures r == SupersFrom(parsed, Keys(parsed), 0, NoSupers)
  {
    var keys := Keys(parsed);
    var s := NoSupers;
    for i := 0 to |keys|
      invariant SupersFrom(parsed, keys, 0, NoSupers) == SupersFrom(parsed, keys, i, s)
    {
      var next := SuperStep(s, keys[i], Get(parsed, keys[i]));
      if next.Abrupt? {
        return Abrupt(next.ex);
      }
      s := next.value;
    }
    r := Normal(s);
  }

  /** One validator compiled; the template is written into the registry the definition came from. */
  method CompileValidatorInto(abolish: AbolishInstance.Abolish, field: string, s: Supers, name: Option<string>,
                              n: string, option: Value) returns (r: Outcome<Compiler.CompiledValidator>)
    modifies abolish, abolish.globals
    ensures var m := CompileValidator(old(Regs(abolish)), field, s, name, n, option);
      (m.Abrupt? ==> r == Abrupt(m.ex) && Regs(abolish) == old(Regs(abolish))) &&
      (m.Normal? ==> r == Normal(m.value.v) && Regs(abolish) == m.value.regs)
    ensures abolish.useStartCaseInErrors == old(abolish.useStartCaseInErrors)
  {
    var inInstance := n in abolish.validators;
    var validator: Validator;
    if inInstance {
      validator := abolish.validators[n];
    } else if n in abolish.globals.validators {
      validator := abolish.globals.validators[n];
    } else {
      return Abrupt(Exception(Error, "Validator " + n + " not found"));
    }
    if !HasTemplate(validator) {
      validator := validator.(error := Some(DefaultError(validator.name)));
    }
    if inInstance {
      abolish.validators := abolish.validators[n := validator];
    } else {
      abolish.globals.validators := abolish.globals.validators[n := validator];
    }
    var error := validator.error.value;
    var errorFn: Option<Value> := None;
    if Truthy(s.error) {
      if s.error.Str? {
        error := s.error.s;
      } else if s.error.Fn? {
        errorFn := Some(s.error);
      }
    }
    var entry := ErrorsEntry(s, n);
    if Truthy(entry) {
      if entry.Str? {
        error := entry.s;
      } else if entry.Fn? {
        errorFn := Some(entry);
      }
    }
    error := ReplaceAll(error, ":param", Compiler.ParamOf(name, field));
    var optionString: Option<string> := None;
    if OptionStringAble(option) {
      optionString := Some(ToJsString(option));
      error := ReplaceAll(error, ":option", optionString.value);
    }
    r := Normal(Compiler.CompiledValidator(n, option, optionString, error, validator.isAsync, errorFn, validator, option));
  }

  /** The validator pass of a field. */
  method CompileValidators(abolish: AbolishInstance.Abolish, field: string, parsed: Record, s: Supers,
                           name: Option<string>, isAsync: bool)
    returns (failure: Option<Exception>, validators: seq<Compiler.CompiledValidator>, anyAsync: bool)
    modifies abolish, abolish.globals
    ensures ValidatorsFrom(field, parsed, Keys(parsed), 0, s, name, Building(old(Regs(abolish)), [], isAsync))
         == Built(Building(Regs(abolish), validators, anyAsync), failure)
    ensures abolish.useStartCaseInErrors == old(abolish.useStartCaseInErrors)
  {
    var keys := Keys(parsed);
    validators, anyAsync := [], isAsync;
    for i := 0 to |keys|
      invariant ValidatorsFrom(field, parsed, keys, 0, s, name, Building(old(Regs(abolish)), [], isAsync))
             == ValidatorsFrom(field, parsed, keys, i, s, name, Building(Regs(abolish), validators, anyAsync))
      invariant abolish.useStartCaseInErrors == old(abolish.useStartCaseInErrors)
    {
      var n := keys[i];
      if n in Interpreter.RuleSuperKeys {
        continue;
      }
      var made := CompileValidatorInto(abolish, field, s, name, n, Get(parsed, n));
      if made.Abrupt? {
        return Some(made.ex), validators, anyAsync;
      }
      validators := validators + [made.value];
      anyAsync := anyAsync || made.value.isAsync;
    }
    failure := None;
  }

  /** One field compiled and appended to `data`. */
  method CompileField(abolish: AbolishInstance.Abolish, wildcard: Value, schema: Record, field: string,
                      data: seq<Compiler.CompiledField>, isAsync: bool)
    returns (failure: Option<Exception>, data': seq<Compiler.CompiledField>, isAsync': bool)
    modifies abolish, abolish.globals
    ensures FieldStep(abolish.env, abolish.useStartCaseInErrors, wildcard, schema, field, Compiling(old(Regs(abolish)), data, isAsync))
         == Stage(Compiling(Regs(abolish), data', isAsync'), failure)
    ensures abolish.useStartCaseInErrors == old(abolish.useStartCaseInErrors)
  {
    data', isAsync' := data, isAsync;
    var parsed := ParseRules(abolish.env.num, wildcard, Get(schema, field));
    if parsed.Abrupt? {
      return Some(parsed.ex), data', isAsync';
    }
    var s := ReadSupers(parsed.value);
    if s.Abrupt? {
      return Some(s.ex), data', isAsync';
    }
    var name := s.value.name;
    if (name.None? || name.value == "") && abolish.useStartCaseInErrors {
      name := Some(StartCase(abolish.env.startCase, field, None));
    }
    var validators, anyAsync;
    failure, validators, anyAsync := CompileValidators(abolish, field, parsed.value, s.value, name, isAsync);
    if failure.Some? {
      return;
    }
    data' := data + [Compiler.CompiledField(field, Compiler.CompiledRule(s.value.skip, name, validators))];
    isAsync' := anyAsync;
  }

  /** `fields` with the entries of `more` it does not hold yet appended. */
  method PushNew(fields: seq<string>, more: seq<string>) returns (r: seq<string>)
    ensures r == AddNew(fields, more)
  {
    r := fields;
    for i := 0 to |more|
      invariant AddNew(fields, more) == AddNew(r, more[i..])
    {
      assert more[i..][1..] == more[i + 1..];
      if more[i] !in r {
        r := r + [more[i]];
      }
    }
    assert more[|more|..] == [];
  }

  /**
   * `Abolish.compileObject(schema, abolish)`. The compiled schema keeps the
   * normalised schema as its input; the instance's registries keep the
   * templates written on the way, also when compilation throws.
   */
  method CompileObject(abolish: AbolishInstance.Abolish, schema: Record) returns (r: Outcome<Compiler.AbolishCompiled>)
    modifies abolish, abolish.globals
    ensures var c := CompileSchema(old(abolish.Engine()), schema);
      Regs(abolish) == c.regs &&
      (c.result.Abrupt? ==> r == Abrupt(c.result.ex)) &&
      (c.result.Normal? ==> r.Normal? && fresh(r.value) && r.value.Schema() == c.result.value &&
                            r.value.input == Obj(Functions.SchemaOf(abolish.env.num, schema)) &&
                            r.value.engine == abolish.Engine())
    ensures abolish.useStartCaseInErrors == old(abolish.useStartCaseInErrors)
  {
    ghost var eng := abolish.Engine();
    var input := Functions.Schema(abolish.env.num, schema);
    var keys := Keys(schema);
    var wildcard, includes := PrescanSchema(abolish.env.num, schema);
    var data: seq<Compiler.CompiledField> := [];
    var isAsync := false;
    for i := 0 to |keys|
      invariant abolish.useStartCaseInErrors == eng.useStartCase
      invariant FieldsFrom(eng.env, eng.useStartCase, wildcard, schema, keys, 0, Compiling(Registries(eng.validators, eng.globals), [], false))
             == FieldsFrom(eng.env, eng.useStartCase, wildcard, schema, keys, i, Compiling(Regs(abolish), data, isAsync))
    {
      if keys[i] in Interpreter.FieldSuperKeys {
        continue;
      }
      var failure;
      failure, data, isAsync := CompileField(abolish, wildcard, schema, keys[i], data, isAsync);
      if failure.Some? {
        return Abrupt(failure.value);
      }
    }
    if !includes.Arr? {
      return Abrupt(ForEachError(includes));
    }
    var included := IncludedNames(includes.items);
    var compiled := Assemble(Obj(input), abolish.Engine(), data, included, isAsync);
    r := Normal(compiled);
  }

  /** The compiled schema built from the compiled fields and the names `$include` lists. */
  method Assemble(input: Value, eng: Interpreter.Engine, data: seq<Compiler.CompiledField>, included: seq<string>, isAsync: bool)
    returns (compiled: Compiler.AbolishCompiled)
    ensures fresh(compiled) && compiled.input == input && compiled.engine == eng
    ensures var fields := AddNew(AddNew([], Compiler.DataKeys(data)), included);
      compiled.Schema() == Compiler.CompiledSchema(data, fields, Some(included), None, AnyDotted(fields), true, isAsync)
  {
    var fields := PushNew([], Compiler.DataKeys(data));
    fields := PushNew(fields, included);
    compiled := new Compiler.AbolishCompiled(input, eng);
    compiled.data := data;
    compiled.fields := fields;
    compiled.includedFields := Some(included);
    compiled.fieldsHasDotNotation := AnyDotted(fields);
    compiled.isAsync := isAsync;
  }

  /** `Abolish.compile(rule, abolish)`: the rule compiled as the field "variable", marked as a variable schema. */
  method Compile(abolish: AbolishInstance.Abolish, rule: Value) returns (r: Outcome<Compiler.AbolishCompiled>)
    modifies abolish, abolish.globals
    ensures var c := CompileSchema(old(abolish.Engine()), VariableSchema(abolish.env.num, rule));
      Regs(abolish) == c.regs &&
      (c.result.Abrupt? ==> r == Abrupt(c.result.ex)) &&
      (c.result.Normal? ==> r.Normal? && fresh(r.value) && r.value.Schema() == c.result.value.(isObject := false) &&
                            r.value.input == Obj(Functions.RuleOf(abolish.env.num, rule)) &&
                            r.value.engine == abolish.Engine())
    ensures abolish.useStartCaseInErrors == old(abolish.useStartCaseInErrors)
  {
    var generated := Functions.Rule(abolish.env.num, rule);
    r := CompileObject(abolish, [Prop("variable", Obj(generated)), Prop("$include", Arr([Str("variable")]))]);
    if r.Normal? {
      r.value.input := Obj(generated);
      r.value.isObject := false;
    }
  }

  // Properties

  /** The names of compiled validators, in order. */
  function Names(vs: seq<Compiler.CompiledValidator>): seq<string>
  {
    if vs == [] then [] else Names(vs[..|vs| - 1]) + [vs[|vs| - 1].name]
  }

  /**
   * A field's validator pass that succeeds compiles exactly the entries that
   * are not super rules, in the order of the rules.
   */
  lemma {:induction false} ValidatorsFollowRules(field: string, parsed: Record, keys: seq<string>, i: nat, s: Supers,
                                                name: Option<string>, b: Building)
    requires i <= |keys|
    ensures var r := ValidatorsFrom(field, parsed, keys, i, s, name, b);
      r.failure.None? ==> Names(r.b.validators) == Names(b.validators) + Interpreter.Without(keys[i..], Interpreter.RuleSuperKeys)
    decreases |keys| - i
  {
    if i < |keys| {
      assert keys[i..][1..] == keys[i + 1..];
      if keys[i] in Interpreter.RuleSuperKeys {
        ValidatorsFollowRules(field, parsed, keys, i + 1, s, name, b);
      } else if keys[i] in b.regs.instance || keys[i] in b.regs.globals {
        var next := ValidatorStepNames(field, parsed, keys, i, s, name, b);
        ValidatorsFollowRules(field, parsed, keys, i + 1, s, name, next);
      }
    }
  }

  /** Every entry of `keys` from the `i`-th on that is not a super rule names a registered validator. */
  predicate AllResolve(regs: Registries, keys: seq<string>, i: nat)
  {
    forall j | i <= j < |keys| && keys[j] !in Interpreter.RuleSuperKeys :: keys[j] in regs.instance || keys[j] in regs.globals
  }

  /** When every validator a field names is registered, its validator pass does not fail. */
  lemma {:induction false} ValidatorsSucceed(field: string, parsed: Record, keys: seq<string>, i: nat, s: Supers,
                                            name: Option<string>, b: Building)
    requires i <= |keys| && AllResolve(b.regs, keys, i)
    ensures ValidatorsFrom(field, parsed, keys, i, s, name, b).failure.None?
    decreases |keys| - i
  {
    if i < |keys| {
      if keys[i] in Interpreter.RuleSuperKeys {
        ValidatorsSucceed(field, parsed, keys, i + 1, s, name, b);
      } else {
        var next := ValidatorStepNames(field, parsed, keys, i, s, name, b);
        ResolveKept(b.regs, next.regs, keys, i + 1);
        ValidatorsSucceed(field, parsed, keys, i + 1, s, name, next);
      }
    }
  }

  lemma ResolveKept(a: Registries, b: Registries, keys: seq<string>, i: nat)
    requires a.instance.Keys == b.instance.Keys && a.globals.Keys == b.globals.Keys
    requires AllResolve(a, keys, i)
    ensures AllResolve(b, keys, i)
  {
    forall j | i <= j < |keys| && keys[j] !in Interpreter.RuleSuperKeys
      ensures keys[j] in b.instance || keys[j] in b.globals
    {
      assert keys[j] in a.instance.Keys || keys[j] in a.globals.Keys;
    }
  }

  /** One validator compiled: the pass goes on with its name appended, the registries holding the same names. */
  lemma ValidatorStepNames(field: string, parsed: Record, keys: seq<string>, i: nat, s: Supers, name: Option<string>,
                           b: Building) returns (next: Building)
    requires i < |keys| && keys[i] !in Interpreter.RuleSuperKeys
    requires keys[i] in b.regs.instance || keys[i] in b.regs.globals
    ensures ValidatorsFrom(field, parsed, keys, i, s, name, b) == ValidatorsFrom(field, parsed, keys, i + 1, s, name, next)
    ensures Names(next.validators) == Names(b.validators) + [keys[i]]
    ensures next.regs.instance.Keys == b.regs.instance.Keys && next.regs.globals.Keys == b.regs.globals.Keys
  {
    var m := CompileValidator(b.regs, field, s, name, keys[i], Get(parsed, keys[i])).value;
    next := Building(m.regs, b.validators + [m.v], b.isAsync || m.v.isAsync);
    CompileValidatorRefines(b.regs, field, s, name, keys[i], Get(parsed, keys[i]));
    NamesAppend(b.validators, m.v);
  }

  lemma NamesAppend(vs: seq<Compiler.CompiledValidator>, v: Compiler.CompiledValidator)
    ensures Names(vs + [v]) == Names(vs) + [v.name]
  {
    assert (vs + [v])[..|vs|] == vs;
  }

  /** An unknown validator stops compilation with "Validator <name> not found", before any template is written for it. */
  lemma UnknownValidatorFails(field: string, parsed: Record, keys: seq<string>, i: nat, s: Supers,
                              name: Option<string>, b: Building)
    requires i < |keys| && keys[i] !in Interpreter.RuleSuperKeys
    requires keys[i] !in b.regs.instance && keys[i] !in b.regs.globals
    ensures ValidatorsFrom(field, parsed, keys, i, s, name, b) == Built(b, Some(Exception(Error, "Validator " + keys[i] + " not found")))
  {
  }

  /** Every validator registered, so long as none carries an empty template, ... */
  predicate Templated(before: Validators, after: Validators)
  {
    before.Keys == after.Keys && forall n | n in before :: after[n] == before[n] || after[n] == WithDefaultError(before[n])
  }

  /** Compiling neither adds nor removes definitions; it only gives a template to those without one. */
  predicate Refines(before: Registries, after: Registries)
  {
    Templated(before.instance, after.instance) && Templated(before.globals, after.globals)
  }

  lemma RefinesReflexive(a: Registries)
    ensures Refines(a, a)
  {
  }

  lemma RefinesTransitive(a: Registries, b: Registries, c: Registries)
    requires Refines(a, b) && Refines(b, c)
    ensures Refines(a, c)
  {
    forall n | n in a.instance
      ensures c.instance[n] == a.instance[n] || c.instance[n] == WithDefaultError(a.instance[n])
    {
      var w := WithDefaultError(a.instance[n]);
      assert WithDefaultError(w) == w;
    }
    forall n | n in a.globals
      ensures c.globals[n] == a.globals[n] || c.globals[n] == WithDefaultError(a.globals[n])
    {
      var w := WithDefaultError(a.globals[n]);
      assert WithDefaultError(w) == w;
    }
  }

  lemma CompileValidatorRefines(regs: Registries, field: string, s: Supers, name: Option<string>, n: string, option: Value)
    requires CompileValidator(regs, field, s, name, n, option).Normal?
    ensures Refines(regs, CompileValidator(regs, field, s, name, n, option).value.regs)
  {
  }

  lemma {:induction false} ValidatorsFromRefines(field: string, parsed: Record, keys: seq<string>, i: nat, s: Supers,
                                                name: Option<string>, b: Building)
    requires i <= |keys|
    ensures Refines(b.regs, ValidatorsFrom(field, parsed, keys, i, s, name, b).b.regs)
    decreases |keys| - i
  {
    if i == |keys| {
      RefinesReflexive(b.regs);
    } else if keys[i] in Interpreter.RuleSuperKeys {
      ValidatorsFromRefines(field, parsed, keys, i + 1, s, name, b);
    } else {
      var m := CompileValidator(b.regs, field, s, name, keys[i], Get(parsed, keys[i]));
      if m.Abrupt? {
        RefinesReflexive(b.regs);
      } else {
        var next := Building(m.value.regs, b.validators + [m.value.v], b.isAsync || m.value.v.isAsync);
        CompileValidatorRefines(b.regs, field, s, name, keys[i], Get(parsed, keys[i]));
        ValidatorsFromRefines(field, parsed, keys, i + 1, s, name, next);
        RefinesTransitive(b.regs, m.value.regs, ValidatorsFrom(field, parsed, keys, i, s, name, b).b.regs);
      }
    }
  }

  lemma {:induction false} FieldsFromRefines(env: Env, useStartCase: bool, wildcard: Value, schema: Record,
                                            keys: seq<string>, i: nat, st: Compiling)
    requires i <= |keys|
    ensures Refines(st.regs, FieldsFrom(env, useStartCase, wildcard, schema, keys, i, st).st.regs)
    decreases |keys| - i
  {
    if i == |keys| {
      RefinesReflexive(st.regs);
    } else if keys[i] in Interpreter.FieldSuperKeys {
      FieldsFromRefines(env, useStartCase, wildcard, schema, keys, i + 1, st);
    } else {
      var step := FieldStep(env, useStartCase, wildcard, schema, keys[i], st);
      FieldStepRefines(env, useStartCase, wildcard, schema, keys[i], st);
      if step.failure.None? {
        FieldsFromRefines(env, useStartCase, wildcard, schema, keys, i + 1, step.st);
        RefinesTransitive(st.regs, step.st.regs, FieldsFrom(env, useStartCase, wildcard, schema, keys, i, st).st.regs);
      }
    }
  }

  lemma FieldStepRefines(env: Env, useStartCase: bool, wildcard: Value, schema: Record, field: string, st: Compiling)
    ensures Refines(st.regs, FieldStep(env, useStartCase, wildcard, schema, field, st).st.regs)
  {
    match ParsedRules(env.num, wildcard, Get(schema, field))
    case Abrupt(_) => RefinesReflexive(st.regs);
    case Normal(parsed) =>
      match SupersFrom(parsed, Keys(parsed), 0, NoSupers)
      case Abrupt(_) => RefinesReflexive(st.regs);
      case Normal(s) =>
        var name := NameFor(env, useStartCase, s, field);
        ValidatorsFromRefines(field, parsed, Keys(parsed), 0, s, name, Building(st.regs, [], st.isAsync));
  }

  /**
   * Whether it succeeds or throws, compiling leaves both registries with the
   * same names, each definition as it was or given the default template.
   */
  lemma CompilingOnlyFillsTemplates(eng: Interpreter.Engine, schema: Record)
    ensures Refines(Registries(eng.validators, eng.globals), CompileSchema(eng, schema).regs)
  {
    var keys := Keys(schema);
    var (wildcard, includes) := Prescan(eng.env.num, schema, keys, 0, Undef, Arr([]));
    FieldsFromRefines(eng.env, eng.useStartCase, wildcard, schema, keys, 0, Compiling(Registries(eng.validators, eng.globals), [], false));
  }

  /** Some validator of a list is async. */
  predicate AsyncIn(vs: seq<Compiler.CompiledValidator>)
  {
    exists j | 0 <= j < |vs| :: vs[j].isAsync
  }

  /** Some validator of some field is async. */
  predicate AnyAsync(data: seq<Compiler.CompiledField>)
  {
    exists i | 0 <= i < |data| :: AsyncIn(data[i].rule.validators)
  }

  lemma AsyncInSplit(vs: seq<Compiler.CompiledValidator>, k: nat)
    requires k < |vs|
    ensures AsyncIn(vs[k..]) <==> vs[k].isAsync || AsyncIn(vs[k + 1..])
  {
    if AsyncIn(vs[k + 1..]) {
      var j :| 0 <= j < |vs[k + 1..]| && vs[k + 1..][j].isAsync;
      assert vs[k..][j + 1].isAsync;
    }
    if AsyncIn(vs[k..]) && !vs[k].isAsync {
      var j :| 0 <= j < |vs[k..]| && vs[k..][j].isAsync;
      assert vs[k + 1..][j - 1].isAsync;
    }
    assert vs[k..][0] == vs[k];
  }

  lemma AnyAsyncSplit(data: seq<Compiler.CompiledField>, k: nat)
    requires k < |data|
    ensures AnyAsync(data[k..]) <==> AsyncIn(data[k].rule.validators) || AnyAsync(data[k + 1..])
  {
    if AnyAsync(data[k + 1..]) {
      var j :| 0 <= j < |data[k + 1..]| && AsyncIn(data[k + 1..][j].rule.validators);
      assert AsyncIn(data[k..][j + 1].rule.validators);
    }
    if AnyAsync(data[k..]) && !AsyncIn(data[k].rule.validators) {
      var j :| 0 <= j < |data[k..]| && AsyncIn(data[k..][j].rule.validators);
      assert AsyncIn(data[k + 1..][j - 1].rule.validators);
    }
    assert data[k..][0] == data[k];
  }

  lemma ValidatorStepAsync(field: string, parsed: Record, keys: seq<string>, i: nat, s: Supers, name: Option<string>, b: Building)
    requires i < |keys| && keys[i] !in Interpreter.RuleSuperKeys
    requires CompileValidator(b.regs, field, s, name, keys[i], Get(parsed, keys[i])).Normal?
    ensures var m := CompileValidator(b.regs, field, s, name, keys[i], Get(parsed, keys[i])).value;
      ValidatorsFrom(field, parsed, keys, i, s, name, b)
      == ValidatorsFrom(field, parsed, keys, i + 1, s, name, Building(m.regs, b.validators + [m.v], b.isAsync || m.v.isAsync))
  {
  }

  lemma {:induction false} ValidatorsFromAsync(field: string, parsed: Record, keys: seq<string>, i: nat, s: Supers,
                                              name: Option<string>, b: Building)
    requires i <= |keys|
    ensures var r := ValidatorsFrom(field, parsed, keys, i, s, name, b);
      r.failure.None? ==> b.validators <= r.b.validators &&
                          (r.b.isAsync <==> b.isAsync || AsyncIn(r.b.validators[|b.validators|..]))
    decreases |keys| - i
  {
    if i == |keys| {
    } else if keys[i] in Interpreter.RuleSuperKeys {
      ValidatorsFromAsync(field, parsed, keys, i + 1, s, name, b);
    } else if CompileValidator(b.regs, field, s, name, keys[i], Get(parsed, keys[i])).Normal? {
      var m := CompileValidator(b.regs, field, s, name, keys[i], Get(parsed, keys[i])).value;
      var next := Building(m.regs, b.validators + [m.v], b.isAsync || m.v.isAsync);
      ValidatorStepAsync(field, parsed, keys, i, s, name, b);
      ValidatorsFromAsync(field, parsed, keys, i + 1, s, name, next);
      var r := ValidatorsFrom(field, parsed, keys, i + 1, s, name, next);
      if r.failure.None? {
        AsyncInSplit(r.b.validators, |b.validators|);
        assert r.b.validators[|b.validators|] == m.v;
      }
    }
  }

  lemma FieldStepAsync(env: Env, useStartCase: bool, wildcard: Value, schema: Record, field: string, st: Compiling)
    ensures var r := FieldStep(env, useStartCase, wildcard, schema, field, st);
      r.failure.None? ==> (r.st.isAsync <==> st.isAsync || AsyncIn(r.st.data[|st.data|].rule.validators))
  {
    match ParsedRules(env.num, wildcard, Get(schema, field))
    case Abrupt(_) =>
    case Normal(parsed) =>
      match SupersFrom(parsed, Keys(parsed), 0, NoSupers)
      case Abrupt(_) =>
      case Normal(s) =>
        var name := NameFor(env, useStartCase, s, field);
        var b := Building(st.regs, [], st.isAsync);
        ValidatorsFromAsync(field, parsed, Keys(parsed), 0, s, name, b);
        var built := ValidatorsFrom(field, parsed, Keys(parsed), 0, s, name, b);
        assert built.b.validators[0..] == built.b.validators;
  }

  lemma {:induction false} FieldsFromAsync(env: Env, useStartCase: bool, wildcard: Value, schema: Record,
                                          keys: seq<string>, i: nat, st: Compiling)
    requires i <= |keys|
    ensures var r := FieldsFrom(env, useStartCase, wildcard, schema, keys, i, st);
      r.failure.None? ==> st.data <= r.st.data && (r.st.isAsync <==> st.isAsync || AnyAsync(r.st.data[|st.data|..]))
    decreases |keys| - i
  {
    if i == |keys| {
    } else if keys[i] in Interpreter.FieldSuperKeys {
      FieldsFromAsync(env, useStartCase, wildcard, schema, keys, i + 1, st);
    } else {
      var step := FieldStep(env, useStartCase, wildcard, schema, keys[i], st);
      if step.failure.None? {
        FieldStepAsync(env, useStartCase, wildcard, schema, keys[i], st);
        FieldsFromAsync(env, useStartCase, wildcard, schema, keys, i + 1, step.st);
        var r := FieldsFrom(env, useStartCase, wildcard, schema, keys, i + 1, step.st);
        if r.failure.None? {
          AsyncChain(st, step.st, r.st);
        }
      }
    }
  }

  /** One compiled field followed by more: the async flag still tracks every field added after `s0`. */
  lemma AsyncChain(s0: Compiling, s1: Compiling, s2: Compiling)
    requires |s1.data| == |s0.data| + 1 && s1.data[..|s0.data|] == s0.data && s1.data <= s2.data
    requires s1.isAsync <==> s0.isAsync || AsyncIn(s1.data[|s0.data|].rule.validators)
    requires s2.isAsync <==> s1.isAsync || AnyAsync(s2.data[|s1.data|..])
    ensures s0.data <= s2.data && (s2.isAsync <==> s0.isAsync || AnyAsync(s2.data[|s0.data|..]))
  {
    AnyAsyncSplit(s2.data, |s0.data|);
    assert s2.data[|s0.data|] == s1.data[|s0.data|];
  }

  /** A compiled schema is async exactly when one of its validators is. */
  lemma CompiledAsyncIff(eng: Interpreter.Engine, schema: Record)
    ensures var c := CompileSchema(eng, schema);
      c.result.Normal? ==> (c.result.value.isAsync <==> AnyAsync(c.result.value.data))
  {
    var keys := Keys(schema);
    var (wildcard, includes) := Prescan(eng.env.num, schema, keys, 0, Undef, Arr([]));
    var st := Compiling(Registries(eng.validators, eng.globals), [], false);
    FieldsFromAsync(eng.env, eng.useStartCase, wildcard, schema, keys, 0, st);
    var r := FieldsFrom(eng.env, eng.useStartCase, wildcard, schema, keys, 0, st);
    assert r.st.data[0..] == r.st.data;
  }

  lemma FieldStepKeys(env: Env, useStartCase: bool, wildcard: Value, schema: Record, field: string, st: Compiling)
    ensures var r := FieldStep(env, useStartCase, wildcard, schema, field, st);
      r.failure.None? ==> Compiler.DataKeys(r.st.data) == Compiler.DataKeys(st.data) + [field]
  {
    var r := FieldStep(env, useStartCase, wildcard, schema, field, st);
    if r.failure.None? {
      assert r.st.data == st.data + [r.st.data[|st.data|]];
    }
  }

  lemma {:induction false} FieldsFromKeys(env: Env, useStartCase: bool, wildcard: Value, schema: Record,
                                         keys: seq<string>, i: nat, st: Compiling)
    requires i <= |keys|
    ensures var r := FieldsFrom(env, useStartCase, wildcard, schema, keys, i, st);
      r.failure.None? ==> Compiler.DataKeys(r.st.data) == Compiler.DataKeys(st.data) + Interpreter.Without(keys[i..], Interpreter.FieldSuperKeys)
    decreases |keys| - i
  {
    if i < |keys| {
      if keys[i] in Interpreter.FieldSuperKeys {
        FieldsFromKeys(env, useStartCase, wildcard, schema, keys, i + 1, st);
        WithoutCons(keys, i, Interpreter.FieldSuperKeys);
      } else {
        var step := FieldStep(env, useStartCase, wildcard, schema, keys[i], st);
        if step.failure.None? {
          FieldsFromKeys(env, useStartCase, wildcard, schema, keys, i + 1, step.st);
        }
        FieldKeysStep(env, useStartCase, wildcard, schema, keys, i, st);
      }
    }
  }

  /** One compiled field adds its key in front of the keys the rest of the pass adds. */
  lemma FieldKeysStep(env: Env, useStartCase: bool, wildcard: Value, schema: Record, keys: seq<string>, i: nat, st: Compiling)
    requires i < |keys| && keys[i] !in Interpreter.FieldSuperKeys
    requires var step := FieldStep(env, useStartCase, wildcard, schema, keys[i], st);
      step.failure.None? ==>
        var r := FieldsFrom(env, useStartCase, wildcard, schema, keys, i + 1, step.st);
        r.failure.None? ==> Compiler.DataKeys(r.st.data) == Compiler.DataKeys(step.st.data) + Interpreter.Without(keys[i + 1..], Interpreter.FieldSuperKeys)
    ensures var r := FieldsFrom(env, useStartCase, wildcard, schema, keys, i, st);
      r.failure.None? ==> Compiler.DataKeys(r.st.data) == Compiler.DataKeys(st.data) + Interpreter.Without(keys[i..], Interpreter.FieldSuperKeys)
  {
    var step := FieldStep(env, useStartCase, wildcard, schema, keys[i], st);
    if step.failure.None? {
      var r := FieldsFrom(env, useStartCase, wildcard, schema, keys, i + 1, step.st);
      if r.failure.None? {
        FieldStepKeys(env, useStartCase, wildcard, schema, keys[i], st);
        WithoutCons(keys, i, Interpreter.FieldSuperKeys);
        KeysChain(st.data, step.st.data, r.st.data, keys[i], Interpreter.Without(keys[i + 1..], Interpreter.FieldSuperKeys));
      }
    }
  }

  lemma WithoutCons(keys: seq<string>, i: nat, drop: seq<string>)
    requires i < |keys|
    ensures Interpreter.Without(keys[i..], drop) == (if keys[i] in drop then [] else [keys[i]]) + Interpreter.Without(keys[i + 1..], drop)
  {
    assert keys[i..][1..] == keys[i + 1..];
  }

  lemma KeysChain(d0: seq<Compiler.CompiledField>, d1: seq<Compiler.CompiledField>, d2: seq<Compiler.CompiledField>,
                  k: string, rest: seq<string>)
    requires Compiler.DataKeys(d1) == Compiler.DataKeys(d0) + [k]
    requires Compiler.DataKeys(d2) == Compiler.DataKeys(d1) + rest
    ensures Compiler.DataKeys(d2) == Compiler.DataKeys(d0) + ([k] + rest)
  {
  }

  /** Adding keeps what was there in front, adds every entry of `more`, and repeats none. */
  lemma {:induction false} AddNewSpec(fields: seq<string>, more: seq<string>)
    ensures var r := AddNew(fields, more);
      (forall k :: k in r <==> k in fields || k in more) &&
      (Interpreter.Unique(fields) ==> Interpreter.Unique(r)) &&
      |fields| <= |r| && r[..|fields|] == fields
    decreases |more|
  {
    if more != [] {
      var next := if more[0] in fields then fields else fields + [more[0]];
      AddNewSpec(next, more[1..]);
      var r := AddNew(next, more[1..]);
      assert r[..|next|][..|fields|] == r[..|fields|];
      assert next[..|fields|] == fields;
      forall k
        ensures k in r <==> k in fields || k in more
      {
        assert k in more <==> k == more[0] || k in more[1..];
      }
      if Interpreter.Unique(fields) && more[0] !in fields {
        forall i, j | 0 <= i < j < |next|
          ensures next[i] != next[j]
        {
          if j == |fields| {
            assert next[i] == fields[i];
          }
        }
      }
    }
  }

  lemma {:induction false} AddNewAppends(fields: seq<string>, more: seq<string>)
    requires Interpreter.Unique(more)
    requires forall k | k in more :: k !in fields
    ensures AddNew(fields, more) == fields + more
    decreases |more|
  {
    if more != [] {
      var next := fields + [more[0]];
      var rest := more[1..];
      assert AddNew(fields, more) == AddNew(next, rest);
      forall i, j | 0 <= i < j < |rest|
        ensures rest[i] != rest[j]
      {
        assert rest[i] == more[i + 1] && rest[j] == more[j + 1];
      }
      forall k | k in rest
        ensures k !in next
      {
        var j :| 0 <= j < |rest| && rest[j] == k;
        assert more[j + 1] == k && more[0] != more[j + 1];
      }
      AddNewAppends(next, rest);
      assert next + rest == fields + more;
    }
  }

  lemma {:induction false} WithoutUnique(ks: seq<string>, drop: seq<string>)
    requires Interpreter.Unique(ks)
    ensures Interpreter.Unique(Interpreter.Without(ks, drop))
    decreases |ks|
  {
    if ks != [] {
      WithoutUnique(ks[1..], drop);
      assert ks[0] !in ks[1..];
    }
  }

  /**
   * A compiled schema holds one entry per field of the schema, in the
   * schema's order, `*`, `$` and `$include` left out. The fields it picks
   * are those and the included ones, each once; when the schema's keys are
   * distinct, its own fields come first, in order.
   */
  lemma CompiledFields(eng: Interpreter.Engine, schema: Record)
    ensures var c := CompileSchema(eng, schema);
      c.result.Normal? ==>
        Compiler.DataKeys(c.result.value.data) == Interpreter.FieldKeys(schema) &&
        Interpreter.Unique(c.result.value.fields) &&
        (forall k :: k in c.result.value.fields <==> k in Interpreter.FieldKeys(schema) || k in c.result.value.includedFields.value) &&
        (Distinct(schema) ==> Interpreter.FieldKeys(schema) <= c.result.value.fields)
  {
    var keys := Keys(schema);
    var (wildcard, includes) := Prescan(eng.env.num, schema, keys, 0, Undef, Arr([]));
    var st := Compiling(Registries(eng.validators, eng.globals), [], false);
    FieldsFromKeys(eng.env, eng.useStartCase, wildcard, schema, keys, 0, st);
    assert keys[0..] == keys;
    var stage := FieldsFrom(eng.env, eng.useStartCase, wildcard, schema, keys, 0, st);
    if stage.failure.None? && includes.Arr? {
      var own := AddNew([], Compiler.DataKeys(stage.st.data));
      AddNewSpec([], Compiler.DataKeys(stage.st.data));
      AddNewSpec(own, IncludedNames(includes.items));
    }
    if Distinct(schema) {
      forall i, j | 0 <= i < j < |keys|
        ensures keys[i] != keys[j]
      {
        JsRecords.KeysIndex(schema, i);
        JsRecords.KeysIndex(schema, j);
      }
      WithoutUnique(keys, Interpreter.FieldSuperKeys);
      AddNewAppends([], Interpreter.FieldKeys(schema));
    }
  }

  /** The pieces a successful compilation assembles its field list from. */
  lemma CompileSchemaParts(eng: Interpreter.Engine, schema: Record)
    ensures var c := CompileSchema(eng, schema);
      var includes := Prescan(eng.env.num, schema, Keys(schema), 0, Undef, Arr([])).1;
      c.result.Normal? ==>
        includes.Arr? && c.result.value.includedFields == Some(IncludedNames(includes.items)) &&
        c.result.value.fields == AddNew(AddNew([], Compiler.DataKeys(c.result.value.data)), IncludedNames(includes.items))
  {
  }

  lemma VariablePrescan(num: NumberParser, rule: Value)
    ensures Prescan(num, VariableSchema(num, rule), Keys(VariableSchema(num, rule)), 0, Undef, Arr([])).1 == Arr([Str("variable")])
  {
    var schema := VariableSchema(num, rule);
    var keys := Keys(schema);
    assert keys == ["variable", "$include"];
    assert Get(schema, "$include") == Arr([Str("variable")]);
    assert Prescan(num, schema, keys, 1, Undef, Arr([])).1 == Arr([Str("variable")]);
  }

  /** `compile(rule)` picks and includes the single field "variable". */
  lemma CompiledVariable(eng: Interpreter.Engine, rule: Value)
    ensures var c := CompileSchema(eng, VariableSchema(eng.env.num, rule));
      c.result.Normal? ==>
        Compiler.DataKeys(c.result.value.data) == ["variable"] &&
        c.result.value.fields == ["variable"] &&
        c.result.value.includedFields == Some(["variable"])
  {
    var schema := VariableSchema(eng.env.num, rule);
    var keys := Keys(schema);
    assert keys == ["variable", "$include"];
    assert keys[1..] == ["$include"] && keys[1..][1..] == [];
    assert Interpreter.Without(keys[1..], Interpreter.FieldSuperKeys) == [];
    assert Interpreter.FieldKeys(schema) == ["variable"];
    CompiledFields(eng, schema);
    CompileSchemaParts(eng, schema);
    VariablePrescan(eng.env.num, rule);
    assert IncludedNames([Str("variable")]) == ["variable"];
    assert AddNew([], ["variable"]) == ["variable"];
    assert AddNew(["variable"], ["variable"]) == ["variable"];
  }

  /**
   * A validator with no `$error` or `$errors` string and an option whose
   * template holds neither `:param` nor `:option` keeps its template as its message.
   */
  lemma PlainTemplateKept(regs: Registries, field: string, s: Supers, name: Option<string>, n: string, option: Value)
    requires CompileValidator(regs, field, s, name, n, option).Normal?
    requires !(Truthy(ErrorsEntry(s, n)) && ErrorsEntry(s, n).Str?) && !(Truthy(s.error) && s.error.Str?)
    requires var t := WithDefaultError(Resolve(regs.instance, regs.globals, n).value).error.value;
      !Contains(t, ":param") && !Contains(t, ":option")
    ensures CompileValidator(regs, field, s, name, n, option).value.v.error
         == WithDefaultError(Resolve(regs.instance, regs.globals, n).value).error.value
  {
  }
}
