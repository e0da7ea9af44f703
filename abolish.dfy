/**
 * An `Abolish` instance: its own validators and its start-case setting, over
 * the global registry every instance shares, and the entry points that
 * validate with them. The interpreting `validate` is written as the loops the
 * library runs and proved equal to the engine in `Interpreter`.
 */
module AbolishInstance {
  import opened Js
  import opened Results
  import opened Host
  import opened Inbuilt
  import opened Registry
  import opened Modifier
  import Interpreter
  import RuleStrings
  import Functions
  import Compiler

  /** What `attempt` ends with: the value, or the `AttemptError` it throws when `check` reports an error. */
  datatype Attempted = Passed(value: Value) | AttemptError(error: ValidationError)

  class Abolish {
    var validators: Validators
    var useStartCaseInErrors: bool
    /** The global registry, shared by every instance. */
    const globals: GlobalRegistry
    const env: Env

    constructor(env: Env, globals: GlobalRegistry)
      ensures validators == map[] && useStartCaseInErrors
      ensures this.env == env && this.globals == globals
    {
      validators := map[];
      useStartCaseInErrors := true;
      this.env := env;
      this.globals := globals;
    }

    /** What validation with this instance depends on. */
    function Engine(): Interpreter.Engine
      reads this, globals
    {
      Interpreter.Engine(env, validators, globals.validators, useStartCaseInErrors)
    }

    /** `useStartCaseInErrors(value)`. */
    method UseStartCaseInErrors(value: bool) returns (self: Abolish)
      modifies this
      ensures self == this && useStartCaseInErrors == value && validators == old(validators)
    {
      useStartCaseInErrors := value;
      self := this;
    }

    /** `addValidator(validator)`: registers under the validator's name, with the default template when it has none. */
    method AddValidator(arg: ValidatorArg) returns (failure: Option<Exception>)
      modifies this
      ensures validators == Add(old(validators), arg, false).m
      ensures failure == Add(old(validators), arg, false).failure
      ensures useStartCaseInErrors == old(useStartCaseInErrors)
    {
      var r := Add(validators, arg, false);
      validators := r.m;
      failure := r.failure;
    }

    /** `addValidators(validators)`: earlier items stay registered when a later one is refused. */
    method AddValidators(args: ValidatorsArg) returns (failure: Option<Exception>)
      modifies this
      ensures validators == AddAll(old(validators), args, false).m
      ensures failure == AddAll(old(validators), args, false).failure
      ensures useStartCaseInErrors == old(useStartCaseInErrors)
    {
      var items: seq<ValidatorArg>;
      match args {
        case Listed(xs) =>
          items := xs;
        case Unlisted(x) =>
          if !x.Arr? && !x.Obj? {
            failure := AddAll(validators, args, false).failure;
            return;
          }
          items := ValueItems(x);
      }
      var i := 0;
      ghost var start := validators;
      assert AddAll(start, args, false) == AddAllFrom(start, items, 0, false);
      while i < |items|
        invariant i <= |items|
        invariant AddAllFrom(start, items, 0, false) == AddAllFrom(validators, items, i, false)
        invariant useStartCaseInErrors == old(useStartCaseInErrors)
        decreases |items| - i
      {
        AddAllFromStep(validators, items, i, false);
        var f := AddValidator(items[i]);
        if f.Some? {
          failure := f;
          return;
        }
        i := i + 1;
      }
      failure := None;
    }

    // validate

    /**
     * `validate(object, rules, isAsync)` up to the point where the output is
     * picked: in sync mode the validators run, in async mode they are queued.
     */
    method Prepare(input: Record, rules: Record, isAsync: bool) returns (r: Outcome<Interpreter.Step>)
      ensures r == Interpreter.Plan(Engine(), env.maxDepth, isAsync, input, rules)
    {
      var wildcard := Wildcard(rules);
      var included := Included(rules);
      if included.Abrupt? {
        return Abrupt(included.ex);
      }
      var validated := new JsObject(input);
      var keys := Interpreter.Without(Keys(rules), Interpreter.FieldSuperKeys);
      var fields := keys;
      var jobs: seq<Interpreter.Job> := [];
      ghost var start := Interpreter.Pending(input, fields, included.value, []);
      for i := 0 to |fields|
        invariant Interpreter.FieldsFrom(Engine(), env.maxDepth, isAsync, wildcard, rules, fields, 0, start)
               == Interpreter.FieldsFrom(Engine(), env.maxDepth, isAsync, wildcard, rules, fields, i,
                                         Interpreter.Pending(validated.props, keys, included.value, jobs))
      {
        var step := RunField(fields[i], rules, wildcard, isAsync, validated, keys, included.value, jobs);
        if step.Abrupt? || step.value.Stopped? {
          return step;
        }
        keys := step.value.pending.keys;
        jobs := step.value.pending.jobs;
      }
      r := Normal(Interpreter.Going(Interpreter.Pending(validated.props, keys, included.value, jobs)));
    }

    /** The rules `*` (or `$`) adds to every field; a string is parsed, anything else spread. */
    method Wildcard(rules: Record) returns (w: Record)
      ensures w == Interpreter.WildcardRules(env.num, rules)
    {
      w := [];
      if HasKey(rules, "*") || HasKey(rules, "$") {
        var given := if Truthy(Get(rules, "*")) then Get(rules, "*") else Get(rules, "$");
        if given.Str? {
          w := RuleStrings.StringToRules(env.num, given.s);
        } else {
          w := OwnProps(given);
        }
      }
    }

    /** The keys `$include` adds to the output; anything but an array throws. */
    method Included(rules: Record) returns (r: Outcome<seq<string>>)
      ensures r == Interpreter.IncludeKeys(rules)
    {
      if !HasKey(rules, "$include") {
        return Normal([]);
      }
      var inc := Get(rules, "$include");
      if !inc.Arr? {
        return Abrupt(Exception(Error, "$include has to be an array!"));
      }
      var keys: seq<string> := [];
      for i := 0 to |inc.items|
        invariant keys == seq(i, j requires 0 <= j < i => ToJsString(inc.items[j]))
      {
        keys := keys + [ToJsString(inc.items[i])];
      }
      r := Normal(keys);
    }

    /** One field's rule as a record: strings are parsed, arrays merged, undefined and null throw. */
    method NormalizeRule(ruleData: Value) returns (r: Outcome<Record>)
      ensures r == Interpreter.Normalize(env.num, ruleData)
    {
      if ruleData.Str? {
        var data := RuleStrings.StringToRules(env.num, ruleData.s);
        r := Normal(data);
      } else if ruleData.Arr? {
        var data := Functions.Rule(env.num, ruleData);
        r := Normal(data);
      } else if ruleData.Undef? || ruleData.Null? {
        r := Abrupt(Exception(TypeError, "Cannot read properties of " + ToJsString(ruleData) + " (reading 'hasOwnProperty')"));
      } else {
        r := Normal(OwnProps(ruleData));
      }
    }

    /** `$skip` of a field: a boolean, or a function of the field's value and the record returning one. */
    method SkipField(data: Record, validated: Record, rule: string) returns (r: Outcome<bool>)
      ensures r == Interpreter.SkipOf(env, data, validated, rule)
    {
      if !HasKey(data, "$skip") {
        return Normal(false);
      }
      var s := Get(data, "$skip");
      if s.Fn? {
        var called := Apply(env, s.f, [Get(validated, rule), Obj(validated)]);
        if called.Threw? {
          return Abrupt(called.ex);
        }
        s := called.v;
      }
      if !s.Bool? {
        return Abrupt(Exception(Error, "$skip value or resolved function value must be a BOOLEAN in RuleFor: (" + rule + ")"));
      }
      r := Normal(s.b);
    }

    /** One field: its rule is read, `$skip` decided, the super rules checked, then its validators run. */
    method RunField(rule: string, rules: Record, wildcard: Record, isAsync: bool, validated: JsObject,
                    keys: seq<string>, included: seq<string>, jobs: seq<Interpreter.Job>)
      returns (r: Outcome<Interpreter.Step>)
      modifies validated
      ensures r == Interpreter.FieldStep(Engine(), env.maxDepth, isAsync, wildcard, rules,
                                         Interpreter.Pending(old(validated.props), keys, included, jobs), rule)
      ensures r.Normal? && r.value.Going? ==> validated.props == r.value.pending.validated
    {
      var data := NormalizeRule(Get(rules, rule));
      if data.Abrupt? {
        return Abrupt(data.ex);
      }
      var skip := SkipField(data.value, validated.props, rule);
      if skip.Abrupt? {
        return Abrupt(skip.ex);
      }
      if skip.value {
        return Normal(Interpreter.Going(Interpreter.Pending(validated.props, Interpreter.Without(keys, [rule]), included, jobs)));
      }
      var settings := Interpreter.SettingsOf(data.value, rule);
      if settings.Abrupt? {
        return Abrupt(settings.ex);
      }
      var omitted := Omit(data.value, Interpreter.RuleSuperKeys);
      r := RunRule(rule, settings.value, Assign(wildcard, omitted), isAsync, validated, keys, included, jobs);
    }

    /**
     * The validators of one field, in key order. In sync mode each reads the
     * field again and runs with a modifier on the shared record; in async mode
     * each is queued.
     */
    method RunRule(rule: string, s: Interpreter.FieldRule, merged: Record, isAsync: bool, validated: JsObject,
                   keys: seq<string>, included: seq<string>, jobs: seq<Interpreter.Job>)
      returns (r: Outcome<Interpreter.Step>)
      modifies validated
      ensures r == Interpreter.ValidatorsFrom(Engine(), env.maxDepth, isAsync, rule, s, merged, Keys(merged), 0,
                                              Interpreter.Pending(old(validated.props), keys, included, jobs))
      ensures r.Normal? && r.value.Going? ==> validated.props == r.value.pending.validated
    {
      var eng := Engine();
      var depth := env.maxDepth;
      var names := Keys(merged);
      var queued := jobs;
      var j := 0;
      while j < |names|
        invariant 0 <= j <= |names|
        invariant Interpreter.ValidatorsFrom(eng, depth, isAsync, rule, s, merged, names, 0,
                                             Interpreter.Pending(old(validated.props), keys, included, jobs))
               == Interpreter.ValidatorsFrom(eng, depth, isAsync, rule, s, merged, names, j,
                                             Interpreter.Pending(validated.props, keys, included, queued))
        invariant isAsync ==> validated.props == old(validated.props)
        decreases |names| - j
      {
        var stop;
        stop, queued := RunValidatorAt(rule, s, merged, isAsync, names, j, validated, keys, included, queued);
        if stop.Some? {
          return stop.value;
        }
        j := j + 1;
      }
      r := Normal(Interpreter.Going(Interpreter.Pending(validated.props, keys, included, queued)));
    }

    /**
     * One validator of a field: an unknown name throws, an async validator throws in
     * sync mode, in async mode the validator is queued, otherwise it runs.
     */
    method RunValidatorAt(rule: string, s: Interpreter.FieldRule, merged: Record, isAsync: bool, names: seq<string>,
                          j: nat, validated: JsObject, keys: seq<string>, included: seq<string>,
                          queued: seq<Interpreter.Job>)
      returns (stop: Option<Outcome<Interpreter.Step>>, queued': seq<Interpreter.Job>)
      requires j < |names|
      modifies validated
      ensures var st := Interpreter.Pending(old(validated.props), keys, included, queued);
        stop.Some? ==> stop.value == Interpreter.ValidatorsFrom(Engine(), env.maxDepth, isAsync, rule, s, merged, names, j, st)
      ensures var st := Interpreter.Pending(old(validated.props), keys, included, queued);
        var next := Interpreter.Pending(validated.props, keys, included, queued');
        stop.None? ==> (Interpreter.ValidatorsFrom(Engine(), env.maxDepth, isAsync, rule, s, merged, names, j, st)
                        == Interpreter.ValidatorsFrom(Engine(), env.maxDepth, isAsync, rule, s, merged, names, j + 1, next))
      ensures stop.Some? ==> stop.value.Abrupt? || stop.value.value.Stopped?
      ensures isAsync ==> validated.props == old(validated.props)
    {
      var n := names[j];
      queued' := queued;
      if n !in validators && n !in globals.validators {
        return Some(Abrupt(Exception(Error, "Validator: {" + n + "} does not exists but defined in rules"))), queued';
      }
      var found := Resolve(validators, globals.validators, n).value;
      if !isAsync && found.isAsync {
        return Some(Abrupt(Exception(Error, "Validator: {" + n + "} is async, use async method instead."))), queued';
      }
      if isAsync {
        queued' := queued + [Interpreter.Job(rule, s, found, n, Get(merged, n))];
        stop := None;
      } else {
        stop := RunSyncValidator(rule, s, merged, names, j, validated, keys, included, queued);
      }
    }

    /**
     * One synchronous validator of a field: it reads the field, runs with a modifier on
     * the shared record, and either ends the field's run or lets the next one go.
     */
    method RunSyncValidator(rule: string, s: Interpreter.FieldRule, merged: Record, names: seq<string>, j: nat,
                          validated: JsObject, keys: seq<string>, included: seq<string>, queued: seq<Interpreter.Job>)
      returns (stop: Option<Outcome<Interpreter.Step>>)
      requires j < |names|
      requires names[j] in validators || names[j] in globals.validators
      requires !Resolve(validators, globals.validators, names[j]).value.isAsync
      modifies validated
      ensures var st := Interpreter.Pending(old(validated.props), keys, included, queued);
        stop.Some? ==> stop.value == Interpreter.ValidatorsFrom(Engine(), env.maxDepth, false, rule, s, merged, names, j, st)
      ensures var st := Interpreter.Pending(old(validated.props), keys, included, queued);
        var next := Interpreter.Pending(validated.props, keys, included, queued);
        stop.None? ==> (Interpreter.ValidatorsFrom(Engine(), env.maxDepth, false, rule, s, merged, names, j, st)
                        == Interpreter.ValidatorsFrom(Engine(), env.maxDepth, false, rule, s, merged, names, j + 1, next))
      ensures stop.Some? ==> stop.value.Abrupt? || stop.value.value.Stopped?
    {
      var eng := Engine();
      var n := names[j];
      var found := Resolve(validators, globals.validators, n).value;
      var option := Get(merged, n);
      var value := AbolishGet(validated.props, rule, None);
      var modifier := new ObjectModifier(validated, rule);
      var verdict := Invoke(env, Interpreter.NestedCheck(eng, env.maxDepth), found, value, option, modifier, SplitPath(rule));
      if verdict.Throw? {
        return Some(Normal(Interpreter.Stopped(Failure(Interpreter.InternalError(env, rule, n, verdict.ex)))));
      }
      if Failed(verdict) {
        var e := Interpreter.FailureMessage(eng, s, rule, n, found, option, value, verdict, false);
        if e.Abrupt? {
          return Some(Abrupt(e.ex));
        }
        return Some(Normal(Interpreter.Stopped(Failure(e.value))));
      }
      stop := None;
    }

    /** `validate(object, rules)` with plain rules. */
    method Validate(input: Record, rules: Record) returns (r: Outcome<ValidationResult>)
      ensures r == Interpreter.Validate(Engine(), env.maxDepth, input, rules)
    {
      var step := Prepare(input, rules, false);
      if step.Abrupt? {
        return Abrupt(step.ex);
      }
      match step.value
      case Stopped(res) =>
        r := Normal(res);
      case Going(p) =>
        var picked := Pick(p.validated, p.keys + p.included, None);
        r := Normal(Success(Obj(picked)));
    }

    /** `validate(object, compiled)`: a compiled schema validates by itself. */
    method ValidateCompiled(input: Record, compiled: Compiler.AbolishCompiled) returns (r: Outcome<ValidationResult>)
      ensures r == Compiler.RunObject(compiled.engine, compiled.engine.env.maxDepth, compiled.Schema(), input, false)
    {
      r := compiled.ValidateObject(input);
    }

    /**
     * `validateAsync(object, rules)`: the plan throws synchronously; the queued
     * validators then run in order and settle the promise.
     */
    method ValidateAsync(input: Record, rules: Record) returns (r: Outcome<Settlement<ValidationResult>>)
      ensures r == Interpreter.ValidateAsync(Engine(), env.maxDepth, input, rules)
    {
      var step := Prepare(input, rules, true);
      if step.Abrupt? {
        return Abrupt(step.ex);
      }
      match step.value
      case Stopped(res) =>
        r := Normal(Fulfilled(res));
      case Going(p) =>
        var settled := RunJobs(p);
        r := Normal(settled);
    }

    /** The queued validators of an async run, each reading the field again from the shared record. */
    method RunJobs(p: Interpreter.Pending) returns (r: Settlement<ValidationResult>)
      ensures r == Interpreter.JobsFrom(Engine(), env.maxDepth, p.jobs, 0, p)
    {
      var eng := Engine();
      var depth := env.maxDepth;
      var validated := new JsObject(p.validated);
      for i := 0 to |p.jobs|
        invariant Interpreter.JobsFrom(eng, depth, p.jobs, 0, p) == Interpreter.JobsFrom(eng, depth, p.jobs, i, p.(validated := validated.props))
      {
        var job := p.jobs[i];
        var value := AbolishGet(validated.props, job.rule, None);
        var modifier := new ObjectModifier(validated, job.rule);
        var verdict := Invoke(env, Interpreter.NestedCheck(eng, depth), job.validator, value, job.option, modifier, SplitPath(job.rule));
        if verdict.Throw? {
          return Fulfilled(Failure(Interpreter.InternalError(env, job.rule, job.validatorName, verdict.ex)));
        }
        if Failed(verdict) {
          var e := Interpreter.FailureMessage(eng, job.settings, job.rule, job.validatorName, job.validator, job.option, value, verdict, true);
          if e.Abrupt? {
            return NeverSettles;
          }
          return Fulfilled(Failure(e.value));
        }
      }
      var picked := Pick(validated.props, p.keys + p.included, None);
      r := Fulfilled(Success(Obj(picked)));
    }

    /** `validateAsync(object, compiled)`. */
    method ValidateAsyncCompiled(input: Record, compiled: Compiler.AbolishCompiled) returns (r: Outcome<ValidationResult>)
      ensures r == Compiler.RunObject(compiled.engine, compiled.engine.env.maxDepth, compiled.Schema(), input, true)
    {
      r := compiled.ValidateObjectAsync(input);
    }

    // check, attempt, test

    /** `check(variable, rule)`: `{variable}` validated with the rule under "variable", always included. */
    method Check(variable: Value, rule: Value) returns (r: Outcome<ValidationResult>)
      ensures r == Interpreter.Check(Engine(), env.maxDepth, variable, rule)
    {
      var res := Validate([Prop("variable", variable)], Interpreter.CheckRules(rule));
      if res.Abrupt? {
        return Abrupt(res.ex);
      }
      r := Normal(ValidationResult(res.value.error, Get(OwnProps(res.value.validated), "variable")));
    }

    /** `check(variable, compiled)`: `validateVariable`, so a throw leaves the compiled schema in object mode. */
    method CheckCompiled(variable: Value, compiled: Compiler.AbolishCompiled) returns (r: Outcome<ValidationResult>)
      modifies compiled
      ensures r == Compiler.RunVariable(compiled.engine, compiled.engine.env.maxDepth, old(compiled.Schema()), variable, false)
      ensures compiled.isObject == (old(compiled.isObject) || r.Abrupt?)
      ensures compiled.Schema() == old(compiled.Schema()).(isObject := compiled.isObject)
    {
      r := compiled.ValidateVariable(variable);
    }

    /** `attempt(variable, rule)`: throws `AttemptError` exactly when `check` reports an error, otherwise returns the value. */
    method Attempt(variable: Value, rule: Value) returns (r: Outcome<Attempted>)
      ensures var c := Interpreter.Check(Engine(), env.maxDepth, variable, rule);
        (c.Abrupt? ==> r == Abrupt(c.ex)) &&
        (c.Normal? && c.value.error.Some? ==> r == Normal(AttemptError(c.value.error.value))) &&
        (c.Normal? && c.value.error.None? ==> r == Normal(Passed(c.value.validated)))
    {
      var data := Check(variable, rule);
      if data.Abrupt? {
        return Abrupt(data.ex);
      }
      if data.value.error.Some? {
        return Normal(AttemptError(data.value.error.value));
      }
      r := Normal(Passed(data.value.validated));
    }

    /** `test(variable, rule)`: true exactly when `check` reports no error. */
    method Test(variable: Value, rule: Value) returns (r: Outcome<bool>)
      ensures var c := Interpreter.Check(Engine(), env.maxDepth, variable, rule);
        (c.Abrupt? ==> r == Abrupt(c.ex)) && (c.Normal? ==> r == Normal(c.value.error.None?))
    {
      var data := Check(variable, rule);
      if data.Abrupt? {
        return Abrupt(data.ex);
      }
      r := Normal(data.value.error.None?);
    }
  }

  /** The message an `AttemptError` carries is the validation error's. */
  function AttemptMessage(a: Attempted): (m: Option<string>)
    ensures a.AttemptError? <==> m.Some?
    ensures a.AttemptError? ==> m.value == a.error.message
  {
    if a.AttemptError? then Some(a.error.message) else None
  }
}
