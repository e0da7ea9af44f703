/**
 * The interpreting engine behind `validate`, `validateAsync` and `check`: rules
 * are read field by field, each field's validators run in key order, and the
 * first failure ends the run. Nested checks made by `arrayValues` and
 * `objectValues` come back into this engine through `NestedCheck`; `depth`
 * is the call stack that is left, and running out of it is the RangeError the
 * runtime would throw.
 */
module Interpreter {
  import opened Js
  import opened JsStr
  import opened Results
  import opened Host
  import opened Inbuilt
  import opened Registry
  import RuleStrings
  import Functions
  import JsRecords

  /** What validation depends on besides its arguments: the runtime, both registries and the start-case setting. */
  datatype Engine = Engine(env: Env, validators: Validators, globals: Validators, useStartCase: bool)

  const FieldSuperKeys: seq<string> := ["*", "$", "$include"]
  const RuleSuperKeys: seq<string> := ["$name", "$skip", "$error", "$errors"]

  const StackOverflow := Exception(RangeError, "Maximum call stack size exceeded")

  /** `ks.filter(k => !drop.includes(k))`. */
  function Without(ks: seq<string>, drop: seq<string>): (r: seq<string>)
    ensures forall k :: k in r <==> k in ks && k !in drop
    ensures |r| <= |ks|
  {
    if ks == [] then [] else (if ks[0] in drop then [] else [ks[0]]) + Without(ks[1..], drop)
  }

  /** A list without repeated entries. */
  predicate Unique(ks: seq<string>)
  {
    forall i, j | 0 <= i < j < |ks| :: ks[i] != ks[j]
  }

  // Reading the rules

  /** The rules `*` (or `$`) adds to every field; a string is parsed, anything else spread. */
  function WildcardRules(num: NumberParser, rules: Record): (w: Record)
    ensures !HasKey(rules, "*") && !HasKey(rules, "$") ==> w == []
  {
    if HasKey(rules, "*") || HasKey(rules, "$") then
      var w := if Truthy(Get(rules, "*")) then Get(rules, "*") else Get(rules, "$");
      if w.Str? then RuleStrings.ParseRuleString(num, w.s) else OwnProps(w)
    else []
  }

  /** The keys `$include` adds to the output; anything but an array is refused. */
  function IncludeKeys(rules: Record): (r: Outcome<seq<string>>)
    ensures !HasKey(rules, "$include") ==> r == Normal([])
    ensures r.Abrupt? <==> HasKey(rules, "$include") && !Get(rules, "$include").Arr?
    ensures r.Abrupt? ==> r.ex == Exception(Error, "$include has to be an array!")
    ensures r.Normal? && HasKey(rules, "$include") ==> |r.value| == |Get(rules, "$include").items|
  {
    if !HasKey(rules, "$include") then Normal([])
    else
      var inc := Get(rules, "$include");
      if inc.Arr? then Normal(seq(|inc.items|, i requires 0 <= i < |inc.items| => ToJsString(inc.items[i])))
      else Abrupt(Exception(Error, "$include has to be an array!"))
  }

  /** The fields to validate: every key of the rules but `*`, `$` and `$include`. */
  function FieldKeys(rules: Record): (ks: seq<string>)
    ensures forall k :: k in ks <==> k in Keys(rules) && k !in FieldSuperKeys
  {
    Without(Keys(rules), FieldSuperKeys)
  }

  /** One field's rule as a record: strings are parsed, arrays merged, undefined and null throw. */
  function Normalize(num: NumberParser, v: Value): (r: Outcome<Record>)
    ensures r.Abrupt? <==> v.Undef? || v.Null?
    ensures v.Str? ==> r == Normal(RuleStrings.ParseRuleString(num, v.s))
    ensures v.Arr? ==> r == Normal(Functions.RuleOf(num, v))
    ensures v.Obj? ==> r == Normal(v.props)
  {
    if v.Str? then Normal(RuleStrings.ParseRuleString(num, v.s))
    else if v.Arr? then Normal(Functions.RuleOf(num, v))
    else if v.Undef? || v.Null? then
      Abrupt(Exception(TypeError, "Cannot read properties of " + ToJsString(v) + " (reading 'hasOwnProperty')"))
    else Normal(OwnProps(v))
  }

  /** A field's rule has a `$skip` entry. */
  predicate MaySkip(num: NumberParser, v: Value)
  {
    Normalize(num, v).Normal? && HasKey(Normalize(num, v).value, "$skip")
  }

  /** `$skip`: a boolean, or a function called with the field's value and the record that must return one. */
  function SkipOf(env: Env, data: Record, validated: Record, rule: string): (r: Outcome<bool>)
    ensures !HasKey(data, "$skip") ==> r == Normal(false)
    ensures HasKey(data, "$skip") && Get(data, "$skip").Bool? ==> r == Normal(Get(data, "$skip").b)
    ensures HasKey(data, "$skip") && !Get(data, "$skip").Bool? && !Get(data, "$skip").Fn? ==>
      r == Abrupt(Exception(Error, "$skip value or resolved function value must be a BOOLEAN in RuleFor: (" + rule + ")"))
  {
    if !HasKey(data, "$skip") then Normal(false)
    else
      var s := Get(data, "$skip");
      var resolved :- if s.Fn? then Called(Apply(env, s.f, [Get(validated, rule), Obj(validated)])) else Normal(s);
      if resolved.Bool? then Normal(resolved.b)
      else Abrupt(Exception(Error, "$skip value or resolved function value must be a BOOLEAN in RuleFor: (" + rule + ")"))
  }

  /** A field's `$name`, `$error` and `$errors`, each checked when present. */
  datatype FieldRule = FieldRule(name: Option<string>, error: Option<Value>, errors: Option<Value>)

  function NameOf(data: Record, rule: string): (r: Outcome<Option<string>>)
    ensures !HasKey(data, "$name") ==> r == Normal(None)
    ensures HasKey(data, "$name") ==> (r.Normal? <==> Get(data, "$name").Str?)
    ensures r.Normal? && HasKey(data, "$name") ==> r.value == Some(Get(data, "$name").s)
    ensures r.Abrupt? ==> r.ex == Exception(Error, "$name must be a string in RuleFor: (" + rule + ")")
  {
    if !HasKey(data, "$name") then Normal(None)
    else
      var n := Get(data, "$name");
      if n.Str? then Normal(Some(n.s)) else Abrupt(Exception(Error, "$name must be a string in RuleFor: (" + rule + ")"))
  }

  function ErrorOf(data: Record, rule: string): (r: Outcome<Option<Value>>)
    ensures !HasKey(data, "$error") ==> r == Normal(None)
    ensures HasKey(data, "$error") ==>
      (r.Normal? <==> Truthy(Get(data, "$error")) && (Get(data, "$error").Str? || Get(data, "$error").Fn?))
    ensures r.Normal? && HasKey(data, "$error") ==> r.value == Some(Get(data, "$error"))
  {
    if !HasKey(data, "$error") then Normal(None)
    else
      var e := Get(data, "$error");
      if !Truthy(e) || (!e.Str? && !e.Fn?) then Abrupt(Exception(Error, "$error value must be a STRING or FUNCTION in RuleFor: (" + rule + ")"))
      else Normal(Some(e))
  }

  function ErrorsOf(data: Record, rule: string): (r: Outcome<Option<Value>>)
    ensures !HasKey(data, "$errors") ==> r == Normal(None)
    ensures HasKey(data, "$errors") ==> (r.Normal? <==> Get(data, "$errors").Obj? || Get(data, "$errors").Arr?)
    ensures r.Normal? && HasKey(data, "$errors") ==> r.value == Some(Get(data, "$errors"))
  {
    if !HasKey(data, "$errors") then Normal(None)
    else
      var e := Get(data, "$errors");
      if !Truthy(e) || TypeOf(e) != "object" then Abrupt(Exception(Error, "$errors value must be an OBJECT in RuleFor: (" + rule + ")"))
      else Normal(Some(e))
  }

  function SettingsOf(data: Record, rule: string): (r: Outcome<FieldRule>)
    ensures r.Normal? <==> NameOf(data, rule).Normal? && ErrorOf(data, rule).Normal? && ErrorsOf(data, rule).Normal?
    ensures r.Normal? ==> r.value == FieldRule(NameOf(data, rule).value, ErrorOf(data, rule).value, ErrorsOf(data, rule).value)
  {
    var name :- NameOf(data, rule);
    var error :- ErrorOf(data, rule);
    var errors :- ErrorsOf(data, rule);
    Normal(FieldRule(name, error, errors))
  }

  /** The validators that run for a field: the wildcard's, overridden by the field's own, without the super rules. */
  function MergedRules(wildcard: Record, data: Record): Record
  {
    Assign(wildcard, OmitOf(data, RuleSuperKeys))
  }

  /**
   * The merged rules: a validator option of the field overrides the wildcard's,
   * and the field's super rules never become validators.
   */
  lemma MergedRulesSpec(wildcard: Record, data: Record, k: string)
    ensures HasKey(MergedRules(wildcard, data), k) <==> HasKey(wildcard, k) || (k !in RuleSuperKeys && HasKey(data, k))
    ensures Get(MergedRules(wildcard, data), k) ==
      if k !in RuleSuperKeys && HasKey(data, k) then Get(data, k) else Get(wildcard, k)
  {
    OmitDistinct(data, RuleSuperKeys, |data|);
    JsRecords.AssignGet(wildcard, OmitOf(data, RuleSuperKeys), k);
    OmitSpec(data, RuleSuperKeys, k);
  }

  // Building the error

  /** The error of a validator that threw: `type` is "internal", the message is the exception's and the data its stack. */
  function InternalError(env: Env, rule: string, name: string, ex: Exception): (e: ValidationError)
    ensures e.kind == Internal && e.key == rule && e.validator == name && e.message == ex.message && e.code == "default"
    ensures e.data == env.stack(ex)
  {
    ValidationError("default", rule, Internal, name, ex.message, env.stack(ex))
  }

  /** What `:param` becomes: `$name` when it is a non-empty string, otherwise the start-cased field. */
  function ParamName(eng: Engine, s: FieldRule, rule: string): string
  {
    if s.name.Some? && s.name.value != "" then s.name.value
    else StartCase(eng.env.startCase, rule, Some(eng.useStartCase))
  }

  /** A message override: a function is called with the error's details, anything else is the message. */
  function Override(env: Env, m: Value, info: Value): (r: Outcome<Value>)
    ensures !m.Fn? ==> r == Normal(m)
  {
    if m.Fn? then Called(Apply(env, m.f, [info])) else Normal(m)
  }

  /** The template of a definition as a value: undefined when it has none. */
  function TemplateValue(error: Option<string>): Value
  {
    if error.Some? then Str(error.value) else Undef
  }

  /** The override `$errors` holds for validator `n`, if any. */
  function ErrorsEntry(s: FieldRule, n: string): Value
  {
    if s.errors.Some? then Get(OwnProps(s.errors.value), n) else Undef
  }

  /** Options whose string form replaces `:option`; the async path leaves arrays out. */
  predicate StringAble(option: Value, asyncMode: bool)
  {
    option.Str? || option.Num? || (!asyncMode && option.Arr?)
  }

  /** Fills `:param` (first occurrence) and, for a string-able option, `:option`. */
  function Fill(eng: Engine, s: FieldRule, rule: string, option: Value, asyncMode: bool, m: string): (r: string)
    ensures !Contains(m, ":param") && !Contains(m, ":option") ==> r == m
    ensures !Contains(m, ":param") && !StringAble(option, asyncMode) ==> r == m
  {
    var withParam := ReplaceFirst(m, ":param", ParamName(eng, s, rule));
    if StringAble(option, asyncMode) then ReplaceFirst(withParam, ":option", ToJsString(option)) else withParam
  }

  /**
   * Only the first `:param` of a template is filled: with colon-free text
   * around two of them, the second one reaches the message unchanged.
   */
  lemma FillKeepsSecondParam(eng: Engine, s: FieldRule, rule: string, option: Value, asyncMode: bool,
                             a: string, b: string, c: string)
    requires Lacks(a, ':') && Lacks(b, ':') && Lacks(c, ':') && Lacks(ParamName(eng, s, rule), ':')
    ensures Fill(eng, s, rule, option, asyncMode, a + ":param" + b + ":param" + c)
         == a + ParamName(eng, s, rule) + b + ":param" + c
  {
    var p := ParamName(eng, s, rule);
    SecondOccurrence(a, b, c, ":param", p);
    LacksAppend(a, p, ':');
    LacksAppend(a + p, b, ':');
    NoOptionAroundParam(a + p + b, c);
  }

  /**
   * The error for a failed validator. Precedence of the message: the `$errors` entry for the
   * validator, then `$error`, then the message of an `AbolishError`, then the template.
   */
  function FailureMessage(eng: Engine, s: FieldRule, rule: string, n: string, v: Validator, option: Value,
                          value: Value, verdict: Verdict, asyncMode: bool): (r: Outcome<ValidationError>)
    requires Failed(verdict)
    ensures r.Normal? ==> r.value.kind == ValidatorType && r.value.key == rule && r.value.validator == n
    ensures r.Normal? ==> r.value.code == (if verdict.Custom? then verdict.err.code else "default")
    ensures r.Normal? ==> r.value.data == (if verdict.Custom? then verdict.err.data else Null)
  {
    var code := if verdict.Custom? then verdict.err.code else "default";
    var data := if verdict.Custom? then verdict.err.data else Null;
    var own := if verdict.Custom? then Str(verdict.err.message) else Undef;
    var afterError :- if s.error.Some? then
        Override(eng.env, s.error.value, Obj([Prop("code", Str(code)), Prop("validator", Str(n)), Prop("data", data), Prop("value", value)]))
      else Normal(own);
    var afterErrors :- if Truthy(ErrorsEntry(s, n)) then
        Override(eng.env, ErrorsEntry(s, n), Obj([Prop("code", Str(code)), Prop("data", data), Prop("validator", Str(n)), Prop("value", value)]))
      else Normal(afterError);
    var chosen := if Truthy(afterErrors) then afterErrors else TemplateValue(v.error);
    if chosen.Undef? then Abrupt(Exception(TypeError, "Cannot read properties of undefined (reading 'replace')"))
    else if !chosen.Str? then Abrupt(Exception(TypeError, "message.replace is not a function"))
    else Normal(ValidationError(code, rule, ValidatorType, n, Fill(eng, s, rule, option, asyncMode, chosen.s), data))
  }

  // The engine

  /** A validator run deferred to the async phase. */
  datatype Job = Job(rule: string, settings: FieldRule, validator: Validator, validatorName: string, option: Value)

  /** The state of a run: the record, the keys still to be picked, the included keys, the deferred jobs. */
  datatype Pending = Pending(validated: Record, keys: seq<string>, included: seq<string>, jobs: seq<Job>)

  /** A run either goes on, or stopped with its result. */
  datatype Step = Going(pending: Pending) | Stopped(result: ValidationResult)

  /** `abolish.check` as a nested validator calls it: one frame deeper. */
  function NestedCheck(eng: Engine, depth: nat): CheckFn
    decreases depth, 0, 0
  {
    (x: Value, rule: Value) => if depth == 0 then Abrupt(StackOverflow) else Check(eng, depth - 1, x, rule)
  }

  /** One validator on the current record, the modifier bound to `path`. */
  function RunValidator(eng: Engine, depth: nat, v: Validator, value: Value, option: Value, rec: Record,
                        path: string, loc: seq<string>): (Verdict, Record)
    decreases depth, 1, 0
  {
    Registry.Run(eng.env, NestedCheck(eng, depth), v, value, option, rec, path, loc)
  }

  /**
   * The validators of one field, from the `i`-th name on. The value is read again before
   * each one, so a validator sees what the ones before it wrote.
   */
  function ValidatorsFrom(eng: Engine, depth: nat, asyncMode: bool, rule: string, s: FieldRule, merged: Record,
                          names: seq<string>, i: nat, st: Pending): (r: Outcome<Step>)
    requires i <= |names|
    ensures r.Normal? && r.value.Stopped? ==> !asyncMode && r.value.result.error.Some? && r.value.result.validated == Obj([])
    ensures r.Normal? && r.value.Going? ==> r.value.pending.keys == st.keys && r.value.pending.included == st.included
    ensures asyncMode && r.Normal? ==> r.value.Going? && r.value.pending.validated == st.validated
    decreases depth, 2, |names| - i
  {
    if i == |names| then Normal(Going(st))
    else
      var n := names[i];
      var found := Resolve(eng.validators, eng.globals, n);
      if found.None? then Abrupt(Exception(Error, "Validator: {" + n + "} does not exists but defined in rules"))
      else if !asyncMode && found.value.isAsync then Abrupt(Exception(Error, "Validator: {" + n + "} is async, use async method instead."))
      else
        var option := Get(merged, n);
        if asyncMode then
          ValidatorsFrom(eng, depth, asyncMode, rule, s, merged, names, i + 1,
                         st.(jobs := st.jobs + [Job(rule, s, found.value, n, option)]))
        else
          var value := AbolishGet(st.validated, rule, None);
          var (verdict, rec) := RunValidator(eng, depth, found.value, value, option, st.validated, rule, SplitPath(rule));
          if verdict.Throw? then Normal(Stopped(Failure(InternalError(eng.env, rule, n, verdict.ex))))
          else if Failed(verdict) then
            var e :- FailureMessage(eng, s, rule, n, found.value, option, value, verdict, false);
            Normal(Stopped(Failure(e)))
          else ValidatorsFrom(eng, depth, asyncMode, rule, s, merged, names, i + 1, st.(validated := rec))
  }

  /** One field: its rule is read, `$skip` decided, the super rules checked, then its validators run. */
  function FieldStep(eng: Engine, depth: nat, asyncMode: bool, wildcard: Record, rules: Record, st: Pending,
                     rule: string): (r: Outcome<Step>)
    ensures r.Normal? && r.value.Stopped? ==> !asyncMode && r.value.result.error.Some? && r.value.result.validated == Obj([])
    ensures r.Normal? && r.value.Going? ==> r.value.pending.included == st.included
    ensures r.Normal? && r.value.Going? ==> forall k | k in r.value.pending.keys :: k in st.keys
    ensures r.Normal? && r.value.Going? && !MaySkip(eng.env.num, Get(rules, rule)) ==> r.value.pending.keys == st.keys
    ensures asyncMode && r.Normal? ==> r.value.Going? && r.value.pending.validated == st.validated
    decreases depth, 3, 0
  {
    var data :- Normalize(eng.env.num, Get(rules, rule));
    var skip :- SkipOf(eng.env, data, st.validated, rule);
    if skip then Normal(Going(st.(keys := Without(st.keys, [rule]))))
    else
      var s :- SettingsOf(data, rule);
      var merged := MergedRules(wildcard, data);
      ValidatorsFrom(eng, depth, asyncMode, rule, s, merged, Keys(merged), 0, st)
  }

  /** The fields from the `i`-th on; a stop ends the run. */
  function FieldsFrom(eng: Engine, depth: nat, asyncMode: bool, wildcard: Record, rules: Record,
                      fields: seq<string>, i: nat, st: Pending): (r: Outcome<Step>)
    requires i <= |fields|
    ensures r.Normal? && r.value.Stopped? ==> !asyncMode && r.value.result.error.Some? && r.value.result.validated == Obj([])
    ensures r.Normal? && r.value.Going? ==> r.value.pending.included == st.included
    ensures r.Normal? && r.value.Going? ==> forall k | k in r.value.pending.keys :: k in st.keys
    ensures r.Normal? && r.value.Going? && (forall j | i <= j < |fields| :: !MaySkip(eng.env.num, Get(rules, fields[j]))) ==>
      r.value.pending.keys == st.keys
    ensures asyncMode && r.Normal? ==> r.value.Going? && r.value.pending.validated == st.validated
    decreases depth, 4, |fields| - i
  {
    if i == |fields| then Normal(Going(st))
    else
      var step :- FieldStep(eng, depth, asyncMode, wildcard, rules, st, fields[i]);
      match step
      case Stopped(_) => Normal(step)
      case Going(next) => FieldsFrom(eng, depth, asyncMode, wildcard, rules, fields, i + 1, next)
  }

  /** `validate(object, rules, isAsync)` up to the point where the output is picked. */
  function Plan(eng: Engine, depth: nat, asyncMode: bool, input: Record, rules: Record): (r: Outcome<Step>)
    ensures r.Normal? && r.value.Stopped? ==> !asyncMode && r.value.result.error.Some? && r.value.result.validated == Obj([])
    ensures r.Normal? ==> IncludeKeys(rules).Normal?
    ensures r.Normal? && r.value.Going? ==> r.value.pending.included == IncludeKeys(rules).value
    ensures r.Normal? && r.value.Going? ==> forall k | k in r.value.pending.keys :: k in FieldKeys(rules)
    ensures r.Normal? && r.value.Going? && (forall k | k in FieldKeys(rules) :: !MaySkip(eng.env.num, Get(rules, k))) ==>
      r.value.pending.keys == FieldKeys(rules)
    ensures asyncMode && r.Normal? ==> r.value.Going? && r.value.pending.validated == input
    decreases depth, 5, 0
  {
    var wildcard := WildcardRules(eng.env.num, rules);
    var included :- IncludeKeys(rules);
    var fields := FieldKeys(rules);
    FieldsFrom(eng, depth, asyncMode, wildcard, rules, fields, 0, Pending(input, fields, included, []))
  }

  /** The output of a run that did not stop: the remaining rule keys and the included keys, picked from the record. */
  function Output(p: Pending): Value
  {
    Obj(PickOf(p.validated, p.keys + p.included, None))
  }

  /** `abolish.validate(object, rules)`: Abrupt when it throws. */
  function Validate(eng: Engine, depth: nat, input: Record, rules: Record): (r: Outcome<ValidationResult>)
    ensures r.Normal? && r.value.error.Some? ==> r.value.validated == Obj([])
    ensures r.Normal? && r.value.error.None? ==> r.value.validated.Obj?
    decreases depth, 6, 0
  {
    var step :- Plan(eng, depth, false, input, rules);
    match step
    case Stopped(res) => Normal(res)
    case Going(p) => Normal(Success(Output(p)))
  }

  /** `abolish.check(variable, rule)`: the value validated under the key "variable". */
  function Check(eng: Engine, depth: nat, variable: Value, rule: Value): (r: Outcome<ValidationResult>)
    ensures r.Normal? && r.value.error.Some? ==> r.value.validated == Undef
    decreases depth, 7, 0
  {
    var res :- Validate(eng, depth, [Prop("variable", variable)], CheckRules(rule));
    Normal(ValidationResult(res.error, Get(OwnProps(res.validated), "variable")))
  }

  /** The rules `check` validates with: the rule under "variable", which is always included. */
  function CheckRules(rule: Value): Record
  {
    [Prop("variable", rule), Prop("$include", Arr([Str("variable")]))]
  }

  // The async phase

  /** The deferred jobs from the `i`-th on. A message that cannot be built leaves the promise unsettled. */
  function JobsFrom(eng: Engine, depth: nat, jobs: seq<Job>, i: nat, p: Pending): (r: Settlement<ValidationResult>)
    requires i <= |jobs|
    ensures !r.Rejected?
    ensures r.Fulfilled? && r.value.error.Some? ==> r.value.validated == Obj([])
    decreases |jobs| - i
  {
    if i == |jobs| then Fulfilled(Success(Output(p)))
    else
      var job := jobs[i];
      var value := AbolishGet(p.validated, job.rule, None);
      var (verdict, rec) := RunValidator(eng, depth, job.validator, value, job.option, p.validated, job.rule, SplitPath(job.rule));
      if verdict.Throw? then Fulfilled(Failure(InternalError(eng.env, job.rule, job.validatorName, verdict.ex)))
      else if Failed(verdict) then
        match FailureMessage(eng, job.settings, job.rule, job.validatorName, job.validator, job.option, value, verdict, true)
        case Abrupt(_) => NeverSettles
        case Normal(e) => Fulfilled(Failure(e))
      else JobsFrom(eng, depth, jobs, i + 1, p.(validated := rec))
  }

  /** `abolish.validateAsync(object, rules)`: the plan throws synchronously, the jobs settle the promise. */
  function ValidateAsync(eng: Engine, depth: nat, input: Record, rules: Record): (r: Outcome<Settlement<ValidationResult>>)
    ensures r.Normal? <==> Plan(eng, depth, true, input, rules).Normal?
  {
    var step :- Plan(eng, depth, true, input, rules);
    match step
    case Stopped(res) => Normal(Fulfilled(res))
    case Going(p) => Normal(JobsFrom(eng, depth, p.jobs, 0, p))
  }

  // Properties

  /** A field whose `$skip` resolves to true runs none of its validators and is dropped from the output keys. */
  lemma SkippedFieldRunsNothing(eng: Engine, depth: nat, asyncMode: bool, wildcard: Record, rules: Record, st: Pending, rule: string)
    requires Normalize(eng.env.num, Get(rules, rule)).Normal?
    requires SkipOf(eng.env, Normalize(eng.env.num, Get(rules, rule)).value, st.validated, rule) == Normal(true)
    ensures FieldStep(eng, depth, asyncMode, wildcard, rules, st, rule) == Normal(Going(st.(keys := Without(st.keys, [rule]))))
    ensures rule !in FieldStep(eng, depth, asyncMode, wildcard, rules, st, rule).value.pending.keys
  {
  }

  /** A validator name found in neither registry makes the run throw instead of reporting an error. */
  lemma UnknownValidatorThrows(eng: Engine, depth: nat, asyncMode: bool, rule: string, s: FieldRule, merged: Record,
                               names: seq<string>, i: nat, st: Pending)
    requires i < |names|
    requires names[i] !in eng.validators && names[i] !in eng.globals
    ensures ValidatorsFrom(eng, depth, asyncMode, rule, s, merged, names, i, st)
      == Abrupt(Exception(Error, "Validator: {" + names[i] + "} does not exists but defined in rules"))
  {
  }

  /** The sync engine refuses an async validator before running anything. */
  lemma AsyncValidatorRefused(eng: Engine, depth: nat, rule: string, s: FieldRule, merged: Record,
                              names: seq<string>, i: nat, st: Pending)
    requires i < |names|
    requires Resolve(eng.validators, eng.globals, names[i]).Some?
    requires Resolve(eng.validators, eng.globals, names[i]).value.isAsync
    ensures ValidatorsFrom(eng, depth, false, rule, s, merged, names, i, st)
      == Abrupt(Exception(Error, "Validator: {" + names[i] + "} is async, use async method instead."))
  {
  }

  /** An exception thrown by a validator ends the run with an internal error naming that validator. */
  lemma ThrowBecomesInternalError(eng: Engine, depth: nat, rule: string, s: FieldRule, merged: Record,
                                  names: seq<string>, i: nat, st: Pending)
    requires i < |names|
    requires Resolve(eng.validators, eng.globals, names[i]).Some?
    requires !Resolve(eng.validators, eng.globals, names[i]).value.isAsync
    requires RunValidator(eng, depth, Resolve(eng.validators, eng.globals, names[i]).value,
                          AbolishGet(st.validated, rule, None), Get(merged, names[i]), st.validated, rule, SplitPath(rule)).0.Throw?
    ensures var ex := RunValidator(eng, depth, Resolve(eng.validators, eng.globals, names[i]).value,
                          AbolishGet(st.validated, rule, None), Get(merged, names[i]), st.validated, rule, SplitPath(rule)).0.ex;
      ValidatorsFrom(eng, depth, false, rule, s, merged, names, i, st)
        == Normal(Stopped(Failure(ValidationError("default", rule, Internal, names[i], ex.message, eng.env.stack(ex)))))
  {
  }

  /** Once the validators of a field stop (or throw), validators listed after that point do not matter. */
  lemma {:induction false} ValidatorsStopEarly(eng: Engine, depth: nat, asyncMode: bool, rule: string, s: FieldRule,
                                               merged: Record, names: seq<string>, more: seq<string>, i: nat, st: Pending)
    requires i <= |names|
    requires ValidatorsFrom(eng, depth, asyncMode, rule, s, merged, names, i, st).Abrupt?
          || ValidatorsFrom(eng, depth, asyncMode, rule, s, merged, names, i, st).value.Stopped?
    ensures ValidatorsFrom(eng, depth, asyncMode, rule, s, merged, names + more, i, st)
         == ValidatorsFrom(eng, depth, asyncMode, rule, s, merged, names, i, st)
    decreases |names| - i
  {
    var all := names + more;
    assert all[i] == names[i];
    var n := names[i];
    var found := Resolve(eng.validators, eng.globals, n);
    if found.Some? && !(!asyncMode && found.value.isAsync) {
      var option := Get(merged, n);
      if asyncMode {
        ValidatorsStopEarly(eng, depth, asyncMode, rule, s, merged, names, more, i + 1,
                            st.(jobs := st.jobs + [Job(rule, s, found.value, n, option)]));
      } else {
        var value := AbolishGet(st.validated, rule, None);
        var (verdict, rec) := RunValidator(eng, depth, found.value, value, option, st.validated, rule, SplitPath(rule));
        if !verdict.Throw? && !Failed(verdict) {
          ValidatorsStopEarly(eng, depth, asyncMode, rule, s, merged, names, more, i + 1, st.(validated := rec));
        }
      }
    }
  }

  /** Once a field stops the run (or it throws), fields listed after it do not matter. */
  lemma {:induction false} FieldsStopEarly(eng: Engine, depth: nat, asyncMode: bool, wildcard: Record, rules: Record,
                                           fields: seq<string>, more: seq<string>, i: nat, st: Pending)
    requires i <= |fields|
    requires FieldsFrom(eng, depth, asyncMode, wildcard, rules, fields, i, st).Abrupt?
          || FieldsFrom(eng, depth, asyncMode, wildcard, rules, fields, i, st).value.Stopped?
    ensures FieldsFrom(eng, depth, asyncMode, wildcard, rules, fields + more, i, st)
         == FieldsFrom(eng, depth, asyncMode, wildcard, rules, fields, i, st)
    decreases |fields| - i
  {
    var all := fields + more;
    assert all[i] == fields[i];
    var step := FieldStep(eng, depth, asyncMode, wildcard, rules, st, fields[i]);
    if step.Normal? && step.value.Going? {
      FieldsStopEarly(eng, depth, asyncMode, wildcard, rules, fields, more, i + 1, step.value.pending);
    }
  }

  /**
   * Message precedence when no override is a function: the `$errors` entry for the validator,
   * then `$error`, then the `AbolishError` message, then the template, which must exist.
   */
  lemma MessagePrecedence(eng: Engine, s: FieldRule, rule: string, n: string, v: Validator, option: Value,
                          value: Value, verdict: Verdict, asyncMode: bool)
    requires Failed(verdict)
    requires s.error.None? || s.error.value.Str?
    requires !ErrorsEntry(s, n).Fn?
    ensures var m := FailureMessage(eng, s, rule, n, v, option, value, verdict, asyncMode);
      ErrorsEntry(s, n).Str? && ErrorsEntry(s, n).s != "" ==>
        m.Normal? && m.value.message == Fill(eng, s, rule, option, asyncMode, ErrorsEntry(s, n).s)
    ensures var m := FailureMessage(eng, s, rule, n, v, option, value, verdict, asyncMode);
      !Truthy(ErrorsEntry(s, n)) && s.error.Some? && s.error.value.s != "" ==>
        m.Normal? && m.value.message == Fill(eng, s, rule, option, asyncMode, s.error.value.s)
    ensures var m := FailureMessage(eng, s, rule, n, v, option, value, verdict, asyncMode);
      !Truthy(ErrorsEntry(s, n)) && s.error.None? && verdict.Custom? && verdict.err.message != "" ==>
        m.Normal? && m.value.message == Fill(eng, s, rule, option, asyncMode, verdict.err.message)
    ensures var m := FailureMessage(eng, s, rule, n, v, option, value, verdict, asyncMode);
      !Truthy(ErrorsEntry(s, n)) && s.error.None? && (verdict.Fail? || verdict.err.message == "") ==>
        (m.Normal? <==> v.error.Some?) && (m.Normal? ==> m.value.message == Fill(eng, s, rule, option, asyncMode, v.error.value))
  {
    if ErrorsEntry(s, n).Str? && ErrorsEntry(s, n).s != "" {
      MessageFromErrors(eng, s, rule, n, v, option, value, verdict, asyncMode);
    } else if Truthy(ErrorsEntry(s, n)) {
    } else if s.error.Some? {
      if s.error.value.s != "" {
        MessageFromError(eng, s, rule, n, v, option, value, verdict, asyncMode);
      }
    } else if verdict.Custom? && verdict.err.message != "" {
      MessageFromAbolishError(eng, s, rule, n, v, option, value, verdict, asyncMode);
    } else {
      MessageFromTemplate(eng, s, rule, n, v, option, value, verdict, asyncMode);
    }
  }

  lemma MessageFromErrors(eng: Engine, s: FieldRule, rule: string, n: string, v: Validator, option: Value,
                          value: Value, verdict: Verdict, asyncMode: bool)
    requires Failed(verdict)
    requires s.error.None? || s.error.value.Str?
    requires ErrorsEntry(s, n).Str? && ErrorsEntry(s, n).s != ""
    ensures var m := FailureMessage(eng, s, rule, n, v, option, value, verdict, asyncMode);
      m.Normal? && m.value.message == Fill(eng, s, rule, option, asyncMode, ErrorsEntry(s, n).s)
  {
  }

  lemma MessageFromError(eng: Engine, s: FieldRule, rule: string, n: string, v: Validator, option: Value,
                         value: Value, verdict: Verdict, asyncMode: bool)
    requires Failed(verdict)
    requires !Truthy(ErrorsEntry(s, n)) && s.error.Some? && s.error.value.Str? && s.error.value.s != ""
    ensures var m := FailureMessage(eng, s, rule, n, v, option, value, verdict, asyncMode);
      m.Normal? && m.value.message == Fill(eng, s, rule, option, asyncMode, s.error.value.s)
  {
  }

  lemma MessageFromAbolishError(eng: Engine, s: FieldRule, rule: string, n: string, v: Validator, option: Value,
                                value: Value, verdict: Verdict, asyncMode: bool)
    requires Failed(verdict)
    requires !Truthy(ErrorsEntry(s, n)) && s.error.None? && verdict.Custom? && verdict.err.message != ""
    ensures var m := FailureMessage(eng, s, rule, n, v, option, value, verdict, asyncMode);
      m.Normal? && m.value.message == Fill(eng, s, rule, option, asyncMode, verdict.err.message)
  {
  }

  lemma MessageFromTemplate(eng: Engine, s: FieldRule, rule: string, n: string, v: Validator, option: Value,
                            value: Value, verdict: Verdict, asyncMode: bool)
    requires Failed(verdict)
    requires !Truthy(ErrorsEntry(s, n)) && s.error.None? && (verdict.Fail? || verdict.err.message == "")
    ensures var m := FailureMessage(eng, s, rule, n, v, option, value, verdict, asyncMode);
      (m.Normal? <==> v.error.Some?) && (m.Normal? ==> m.value.message == Fill(eng, s, rule, option, asyncMode, v.error.value))
  {
  }

  /** The value a nested check sees once the call stack is used up. */
  lemma NestedCheckBottom(eng: Engine, x: Value, rule: Value)
    ensures NestedCheck(eng, 0)(x, rule) == Abrupt(StackOverflow)
  {
  }

  /**
   * A successful run's output holds only rule fields and included keys; when no field can be
   * skipped it holds all of them, in the order of the rules followed by `$include`.
   */
  lemma OutputKeys(eng: Engine, depth: nat, input: Record, rules: Record)
    requires Validate(eng, depth, input, rules).Normal? && Validate(eng, depth, input, rules).value.error.None?
    ensures IncludeKeys(rules).Normal?
    ensures forall k | HasKey(Validate(eng, depth, input, rules).value.validated.props, k) ::
      k in FieldKeys(rules) || k in IncludeKeys(rules).value
    ensures (forall k | k in FieldKeys(rules) :: !MaySkip(eng.env.num, Get(rules, k))) ==>
      forall k | k in FieldKeys(rules) || k in IncludeKeys(rules).value ::
        HasKey(Validate(eng, depth, input, rules).value.validated.props, k)
    ensures (forall k | k in FieldKeys(rules) :: !MaySkip(eng.env.num, Get(rules, k))) && Unique(FieldKeys(rules) + IncludeKeys(rules).value) ==>
      Keys(Validate(eng, depth, input, rules).value.validated.props) == FieldKeys(rules) + IncludeKeys(rules).value
  {
    var p := Plan(eng, depth, false, input, rules).value.pending;
    var ks := p.keys + p.included;
    var out := Validate(eng, depth, input, rules).value.validated.props;
    assert out == PickFrom(p.validated, ks, AnyDotted(ks));
    forall k
      ensures HasKey(out, k) <==> k in ks
    {
      PickFromSpec(p.validated, ks, AnyDotted(ks), k);
    }
    if (forall k | k in FieldKeys(rules) :: !MaySkip(eng.env.num, Get(rules, k))) && Unique(FieldKeys(rules) + IncludeKeys(rules).value) {
      PickFromKeys(p.validated, ks, AnyDotted(ks));
    }
  }

  /** A field whose rule is empty, with no wildcard, leaves the run as it was. */
  lemma EmptyFieldPasses(eng: Engine, depth: nat, asyncMode: bool, rules: Record, st: Pending, rule: string)
    requires Get(rules, rule) == Obj([])
    ensures FieldStep(eng, depth, asyncMode, [], rules, st, rule) == Normal(Going(st))
  {
    assert Normalize(eng.env.num, Get(rules, rule)) == Normal([]);
    assert SkipOf(eng.env, [], st.validated, rule) == Normal(false);
    assert SettingsOf([], rule) == Normal(FieldRule(None, None, None));
    assert OmitOf([], RuleSuperKeys) == [];
    assert MergedRules([], []) == [];
  }

  /** The rules `check` builds: one field, "variable", which is also included. */
  lemma CheckRulesShape(rule: Value)
    ensures FieldKeys(CheckRules(rule)) == ["variable"]
    ensures IncludeKeys(CheckRules(rule)) == Normal(["variable"])
    ensures forall num: NumberParser :: WildcardRules(num, CheckRules(rule)) == []
    ensures Get(CheckRules(rule), "variable") == rule
  {
    var rules := CheckRules(rule);
    assert "variable" != "$include" by { assert "variable"[0] != "$include"[0]; }
    assert "variable" != "*" by { assert "variable"[0] != "*"[0]; }
    assert "variable" != "$" by { assert "variable"[0] != "$"[0]; }
    assert "$include" != "*" by { assert "$include"[0] != "*"[0]; }
    assert "$include" != "$" by { assert |"$include"| != |"$"|; }
    assert rules[1..] == [Prop("$include", Arr([Str("variable")]))];
    assert Keys(rules) == ["variable", "$include"];
    assert Keys(rules)[1..] == ["$include"];
    assert FieldSuperKeys[2] == "$include";
    assert Without(Keys(rules)[1..], FieldSuperKeys) == [];
    assert Get(rules, "$include") == Arr([Str("variable")]);
    assert HasKey(rules, "$include");
    var ks := IncludeKeys(rules).value;
    assert |ks| == 1 && ks[0] == ToJsString(Str("variable")) == "variable";
    assert ks == ["variable"];
    assert !HasKey(rules[1..], "*") && !HasKey(rules[1..], "$");
    assert !HasKey(rules, "*") && !HasKey(rules, "$");
  }

  /** The plan of `check` with an empty rule: nothing runs. */
  lemma CheckEmptyPlan(eng: Engine, depth: nat, x: Value)
    ensures Plan(eng, depth, false, [Prop("variable", x)], CheckRules(Obj([])))
      == Normal(Going(Pending([Prop("variable", x)], ["variable"], ["variable"], [])))
  {
    var rules := CheckRules(Obj([]));
    CheckRulesShape(Obj([]));
    var st := Pending([Prop("variable", x)], ["variable"], ["variable"], []);
    EmptyFieldPasses(eng, depth, false, rules, st, "variable");
    assert FieldsFrom(eng, depth, false, [], rules, ["variable"], 1, st) == Normal(Going(st));
  }

  lemma PickVariable(x: Value)
    ensures PickOf([Prop("variable", x)], ["variable", "variable"], None) == [Prop("variable", x)]
  {
    var ks := ["variable", "variable"];
    assert !AnyDotted(ks) by {
      HasDotNotationSpec("variable");
    }
    assert ks[..1] == ["variable"];
    assert PickFrom([Prop("variable", x)], ks[..1], false) == [Prop("variable", x)];
  }

  lemma ValidateEmptyRule(eng: Engine, depth: nat, x: Value)
    ensures Validate(eng, depth, [Prop("variable", x)], CheckRules(Obj([]))) == Normal(Success(Obj([Prop("variable", x)])))
  {
    CheckEmptyPlan(eng, depth, x);
    var p := Pending([Prop("variable", x)], ["variable"], ["variable"], []);
    assert Output(p) == Obj([Prop("variable", x)]) by {
      assert p.keys + p.included == ["variable", "variable"];
      PickVariable(x);
    }
  }

  /** `check` with an empty rule hands the value back untouched. */
  lemma CheckEmptyRule(eng: Engine, depth: nat, x: Value)
    ensures Check(eng, depth, x, Obj([])) == Normal(ValidationResult(None, x))
  {
    ValidateEmptyRule(eng, depth, x);
    assert Get(OwnProps(Obj([Prop("variable", x)])), "variable") == x;
  }

  /** What `check` returns when the run it wraps succeeds: the output's "variable". */
  lemma CheckOfSuccess(eng: Engine, depth: nat, x: Value, rule: Value, out: Value)
    requires Validate(eng, depth, [Prop("variable", x)], CheckRules(rule)) == Normal(Success(out))
    ensures Check(eng, depth, x, rule) == Normal(ValidationResult(None, Get(OwnProps(out), "variable")))
  {
  }
}
