/**
 * Validator definitions, the built-in registry every instance falls back to,
 * registration, and the dispatch from a definition to the body it runs.
 */
module Registry {
  import opened Js
  import opened Results
  import opened Host
  import opened Effects
  import opened Modifier
  import opened Inbuilt
  import GlobalValidators
  import ArrayValidators
  import ObjectValidators
  import StringValidators
  import UtilsValidators

  /** Which body a validator runs: one of the shipped ones, or one registered by the caller. */
  datatype Body =
    | Must | Typeof | Exact | Min | Max | MinLength | MaxLength | SelectMin | SelectMax
    | ArrayType | ArraySize | InArray | NotInArray | ArrayValues
    | ObjectValues | ObjectValuesType | BooleanType | Same
    | CallerDefined(id: nat)
    | NotCallable    // a registered plain object without a `validator` function

  /** A validator definition: its name, its body, its error template and whether it is async. */
  datatype Validator = Validator(name: string, body: Body, error: Option<string>, isAsync: bool)

  type Validators = map<string, Validator>

  /** An error template is present and not empty. */
  predicate HasTemplate(v: Validator)
  {
    v.error.Some? && v.error.value != ""
  }

  /** The template registration gives a validator that has none. */
  function DefaultError(name: string): string
  {
    ":param failed {" + name + "} validation."
  }

  /** `if (!validator.error) validator.error = ...`. */
  function WithDefaultError(v: Validator): (w: Validator)
    ensures HasTemplate(w)
    ensures w.name == v.name && w.body == v.body && w.isAsync == v.isAsync
    ensures HasTemplate(v) ==> w == v
    ensures !HasTemplate(v) ==> w.error == Some(DefaultError(v.name))
  {
    if HasTemplate(v) then v else v.(error := Some(DefaultError(v.name)))
  }

  /** The nine built-ins of the global registry; `exact` ships without a template. */
  function InitialGlobals(): (m: Validators)
    ensures forall n | n in m :: m[n].name == n && !m[n].isAsync
    ensures "exact" in m && m["exact"].error.None?
    ensures |m.Keys| == 9
  {
    map[
      "must" := Validator("must", Must, Some(GlobalValidators.MustError), false),
      "typeof" := Validator("typeof", Typeof, Some(GlobalValidators.TypeOfError), false),
      "exact" := Validator("exact", Exact, None, false),
      "min" := Validator("min", Min, Some(GlobalValidators.MinError), false),
      "max" := Validator("max", Max, Some(GlobalValidators.MaxError), false),
      "minLength" := Validator("minLength", MinLength, Some(GlobalValidators.MinLengthError), false),
      "maxLength" := Validator("maxLength", MaxLength, Some(GlobalValidators.MaxLengthError), false),
      "selectMin" := Validator("selectMin", SelectMin, Some(GlobalValidators.SelectMinError), false),
      "selectMax" := Validator("selectMax", SelectMax, Some(GlobalValidators.SelectMaxError), false)]
  }

  /**
   * The validators shipped in the array, object, string and utils folders, ready
   * to register; `arraySize` and `inArray` declare no template of their own.
   */
  function Shipped(): (vs: seq<Validator>)
    ensures |vs| == 9
    ensures forall i | 0 <= i < |vs| :: !vs[i].isAsync && !vs[i].body.CallerDefined? && !vs[i].body.NotCallable?
    ensures forall i | 0 <= i < |vs| :: (HasTemplate(vs[i]) <==> vs[i].name != "arraySize" && vs[i].name != "inArray")
    ensures forall i | 0 <= i < |vs| :: vs[i].error.Some? ==> HasTemplate(vs[i])
    ensures forall i | 0 <= i < |vs| && vs[i].body.NotInArray? :: vs[i].error == Some(ArrayValidators.NotInArrayError)
    ensures forall i | 0 <= i < |vs| && vs[i].body.ObjectValuesType? :: vs[i].error == Some(ObjectValidators.ObjectValuesError)
  {
    [Validator("array", ArrayType, Some(ArrayValidators.ArrayError), false),
     Validator("arraySize", ArraySize, None, false),
     Validator("inArray", InArray, None, false),
     Validator("notInArray", NotInArray, Some(ArrayValidators.NotInArrayError), false),
     Validator("arrayValues", ArrayValues, Some(ArrayValidators.ArrayValuesError), false),
     Validator("objectValues", ObjectValues, Some(ObjectValidators.ObjectValuesError), false),
     Validator("objectValuesType", ObjectValuesType, Some(ObjectValidators.ObjectValuesError), false),
     Validator("boolean", BooleanType, Some(StringValidators.BooleanError), false),
     Validator("same", Same, Some(UtilsValidators.SameError), false)]
  }

  /** The lookup both engines make: the instance's own validators shadow the global ones. */
  function Resolve(instance: Validators, globals: Validators, name: string): (r: Option<Validator>)
    ensures r.None? <==> name !in instance && name !in globals
    ensures name in instance ==> r == Some(instance[name])
    ensures name !in instance && name in globals ==> r == Some(globals[name])
  {
    if name in instance then Some(instance[name])
    else if name in globals then Some(globals[name])
    else None
  }

  // Registration

  /** The argument of `addValidator`: a validator definition, or some other value. */
  datatype ValidatorArg = Given(v: Validator) | NotAValidator(x: Value)

  /** The argument of `addValidators`: definitions listed in an array or an object, or some other value. */
  datatype ValidatorsArg = Listed(items: seq<ValidatorArg>) | Unlisted(x: Value)

  /** The ways registration can throw; `global` picks the static method's wording. */
  function NotAnObjectError(global: bool): Exception
  {
    Exception(TypeError, if global then "addGlobalValidator argument must be an object." else "addValidator argument must be an object.")
  }

  function NotAListError(global: bool): Exception
  {
    Exception(TypeError, if global then "addGlobalValidators argument must be an array or an object"
                         else "addValidators argument must be an array or an object")
  }

  /** What `Object.defineProperty(validator.validator, ...)` throws when the object has no `validator`. */
  const NoFunctionToName := Exception(TypeError, "Object.defineProperty called on non-object")

  /**
   * The entry a plain object that is not a validator definition becomes: it is
   * filed under `String(validator.name)`, keeps a truthy `error` (by its string
   * form) or gets the default template, and throws when it is run.
   */
  function PlainEntry(props: Record): (v: Validator)
    ensures v.name == ToJsString(Get(props, "name")) && v.body == NotCallable
    ensures v.isAsync == Truthy(Get(props, "isAsync"))
    ensures !Truthy(Get(props, "error")) ==> v.error == Some(DefaultError(v.name))
    ensures Get(props, "error").Str? && Truthy(Get(props, "error")) ==> v.error == Some(Get(props, "error").s)
  {
    var name := ToJsString(Get(props, "name"));
    var e := Get(props, "error");
    Validator(name, NotCallable, Some(if Truthy(e) then ToJsString(e) else DefaultError(name)), Truthy(Get(props, "isAsync")))
  }

  /** Registering one item: the registry afterwards, and the exception thrown, if any. */
  datatype Registered = Registered(m: Validators, failure: Option<Exception>)

  /**
   * `addValidator` / `addGlobalValidator` on the registry `m`. Any object that is
   * not an array is filed; the global variant then names the validator function,
   * which throws after the entry is stored when the object has none.
   */
  function Add(m: Validators, arg: ValidatorArg, global: bool): (r: Registered)
    ensures arg.Given? ==> r == Registered(m[arg.v.name := WithDefaultError(arg.v)], None)
    ensures arg.Given? ==> arg.v.name in r.m && HasTemplate(r.m[arg.v.name])
    ensures arg.Given? ==> forall n | n in m && n != arg.v.name :: n in r.m && r.m[n] == m[n]
    ensures arg == NotAValidator(Null) ==> r == Registered(m, Some(Exception(TypeError, "Cannot read properties of null (reading 'error')")))
    ensures arg.NotAValidator? && arg.x.Obj? ==>
      r == Registered(m[PlainEntry(arg.x.props).name := PlainEntry(arg.x.props)], if global then Some(NoFunctionToName) else None)
    ensures arg.NotAValidator? && !arg.x.Null? && !arg.x.Obj? ==> r == Registered(m, Some(NotAnObjectError(global)))
  {
    match arg
    case Given(v) => Registered(m[v.name := WithDefaultError(v)], None)
    case NotAValidator(x) =>
      if x.Null? then Registered(m, Some(Exception(TypeError, "Cannot read properties of null (reading 'error')")))
      else if x.Obj? then
        var entry := PlainEntry(x.props);
        Registered(m[entry.name := entry], if global then Some(NoFunctionToName) else None)
      else Registered(m, Some(NotAnObjectError(global)))
  }

  /** Registering a list one by one, up to and including the first item that throws. */
  function AddAllFrom(m: Validators, items: seq<ValidatorArg>, i: nat, global: bool): Registered
    requires i <= |items|
    decreases |items| - i
  {
    if i == |items| then Registered(m, None)
    else
      var r := Add(m, items[i], global);
      if r.failure.Some? then r else AddAllFrom(r.m, items, i + 1, global)
  }

  /** One step of `AddAllFrom`: the item's registration, then the rest unless it threw. */
  lemma AddAllFromStep(m: Validators, items: seq<ValidatorArg>, i: nat, global: bool)
    requires i < |items|
    ensures var r := Add(m, items[i], global);
      AddAllFrom(m, items, i, global) == if r.failure.Some? then r else AddAllFrom(r.m, items, i + 1, global)
  {
  }

  /** What `Object.values` yields for an array or an object argument: values, not definitions. */
  function ValueItems(x: Value): seq<ValidatorArg>
  {
    seq(|OwnProps(x)|, i requires 0 <= i < |OwnProps(x)| => NotAValidator(OwnProps(x)[i].val))
  }

  /** `addValidators` / `addGlobalValidators`. */
  function AddAll(m: Validators, args: ValidatorsArg, global: bool): Registered
  {
    match args
    case Listed(items) => AddAllFrom(m, items, 0, global)
    case Unlisted(x) =>
      if x.Undef? then Registered(m, Some(NotAListError(global)))
      else if x.Null? then Registered(m, Some(Exception(TypeError, "Cannot convert undefined or null to object")))
      else if x.Arr? || x.Obj? then AddAllFrom(m, ValueItems(x), 0, global)
      else Registered(m, Some(NotAListError(global)))
  }

  /** Every definition in the registry carries a template once it went through registration. */
  predicate AllTemplated(m: Validators)
  {
    forall n | n in m :: HasTemplate(m[n])
  }

  /** Registration keeps earlier names, up to the first failure; a list of definitions keeps every template. */
  lemma {:induction false} AddAllFromKeeps(m: Validators, items: seq<ValidatorArg>, i: nat, global: bool)
    requires i <= |items|
    ensures m.Keys <= AddAllFrom(m, items, i, global).m.Keys
    ensures (forall j | i <= j < |items| :: items[j].Given?) ==>
      (AllTemplated(m) ==> AllTemplated(AddAllFrom(m, items, i, global).m))
    ensures (forall j | i <= j < |items| :: items[j].Given?) ==> AddAllFrom(m, items, i, global).failure.None?
    decreases |items| - i
  {
    if i < |items| {
      var r := Add(m, items[i], global);
      if r.failure.None? {
        AddAllFromKeeps(r.m, items, i + 1, global);
      }
    }
  }

  /** When every item is a definition, each name ends up holding the last definition given for it. */
  lemma {:induction false} AddAllFromLast(m: Validators, items: seq<ValidatorArg>, i: nat, global: bool, n: string)
    requires i <= |items|
    requires forall j | i <= j < |items| :: items[j].Given?
    ensures var end := AddAllFrom(m, items, i, global).m;
      (exists j | i <= j < |items| :: items[j].v.name == n) ==> n in end && end[n].name == n
    ensures var end := AddAllFrom(m, items, i, global).m;
      (forall j | i <= j < |items| :: items[j].v.name != n) ==> (n in end <==> n in m) && (n in m ==> end[n] == m[n])
    decreases |items| - i
  {
    if i < |items| {
      var m' := m[items[i].v.name := WithDefaultError(items[i].v)];
      AddAllFromLast(m', items, i + 1, global, n);
      if items[i].v.name == n && forall j | i + 1 <= j < |items| :: items[j].v.name != n {
        assert n in m' && m'[n].name == n;
      }
    }
  }

  /** A definition whose name no other item of the list repeats ends up registered as given, templated. */
  lemma {:induction false} AddAllFromDistinct(m: Validators, items: seq<ValidatorArg>, i: nat, global: bool, j: nat)
    requires i <= j < |items|
    requires forall k | i <= k < |items| :: items[k].Given?
    requires forall k | i <= k < |items| && k != j :: items[k].v.name != items[j].v.name
    ensures var end := AddAllFrom(m, items, i, global).m;
      items[j].v.name in end && end[items[j].v.name] == WithDefaultError(items[j].v)
    decreases |items| - i
  {
    var m' := m[items[i].v.name := WithDefaultError(items[i].v)];
    assert AddAllFrom(m, items, i, global) == AddAllFrom(m', items, i + 1, global);
    if i == j {
      AddAllFromLast(m', items, i + 1, global, items[j].v.name);
    } else {
      AddAllFromDistinct(m', items, i + 1, global, j);
    }
  }

  /** No two shipped validators share a name. */
  lemma ShippedNamesDistinct(i: nat, j: nat)
    requires i < j < |Shipped()|
    ensures Shipped()[i].name != Shipped()[j].name
  {
    var lengths := [5, 9, 7, 10, 11, 12, 16, 7, 4];
    assert forall k | 0 <= k < |Shipped()| :: |Shipped()[k].name| == lengths[k];
    if lengths[i] == lengths[j] {
      assert Shipped()[i].name[0] != Shipped()[j].name[0];
    }
  }

  /** Every other shipped validator has a name of its own. */
  lemma ShippedOthersDiffer(i: nat)
    requires i < |Shipped()|
    ensures forall k | 0 <= k < |ShippedArgs()| && k != i :: ShippedArgs()[k].v.name != ShippedArgs()[i].v.name
  {
    forall k | 0 <= k < |Shipped()| && k != i
      ensures Shipped()[k].name != Shipped()[i].name
    {
      if k < i { ShippedNamesDistinct(k, i); } else { ShippedNamesDistinct(i, k); }
    }
  }

  /** The shipped definitions as the argument of `addGlobalValidators`. */
  function ShippedArgs(): (items: seq<ValidatorArg>)
    ensures |items| == |Shipped()|
    ensures forall i | 0 <= i < |items| :: items[i] == Given(Shipped()[i])
  {
    seq(|Shipped()|, i requires 0 <= i < |Shipped()| => Given(Shipped()[i]))
  }

  /**
   * Registering the shipped validators never throws, keeps every name already
   * registered, and files each one under its name with its own template, or the
   * default one for `arraySize` and `inArray`.
   */
  lemma ShippedRegistered(m: Validators, global: bool, i: nat)
    requires i < |Shipped()|
    ensures var r := AddAll(m, Listed(ShippedArgs()), global);
      r.failure.None? && m.Keys <= r.m.Keys
    ensures var r := AddAll(m, Listed(ShippedArgs()), global);
      Shipped()[i].name in r.m && r.m[Shipped()[i].name] == WithDefaultError(Shipped()[i])
    ensures var r := AddAll(m, Listed(ShippedArgs()), global);
      Shipped()[i].error.Some? ==> r.m[Shipped()[i].name].error == Shipped()[i].error
  {
    var items := ShippedArgs();
    AddAllFromKeeps(m, items, 0, global);
    ShippedOthersDiffer(i);
    AddAllFromDistinct(m, items, 0, global, i);
  }

  /** A value that is neither an array nor an object is refused without touching the registry. */
  lemma RejectsNonLists(m: Validators, x: Value, global: bool)
    requires !x.Arr? && !x.Obj?
    ensures AddAll(m, Unlisted(x), global).m == m
    ensures AddAll(m, Unlisted(x), global).failure.Some?
  {
  }

  /**
   * The first value of an array or object argument decides how registration goes on:
   * null and non-objects stop it with nothing registered, a plain object is filed
   * under its `name` and, in the instance variant, registration goes on.
   */
  lemma FirstValueDecides(m: Validators, x: Value, global: bool)
    requires x.Arr? || x.Obj?
    requires |OwnProps(x)| > 0
    ensures var first := OwnProps(x)[0].val;
      first.Null? ==> AddAll(m, Unlisted(x), global) == Registered(m, Some(Exception(TypeError, "Cannot read properties of null (reading 'error')")))
    ensures var first := OwnProps(x)[0].val;
      !first.Null? && !first.Obj? ==> AddAll(m, Unlisted(x), global) == Registered(m, Some(NotAnObjectError(global)))
    ensures var first := OwnProps(x)[0].val;
      first.Obj? && global ==>
        AddAll(m, Unlisted(x), global) == Registered(m[PlainEntry(first.props).name := PlainEntry(first.props)], Some(NoFunctionToName))
    ensures var first := OwnProps(x)[0].val;
      first.Obj? && !global ==>
        AddAll(m, Unlisted(x), global) == AddAllFrom(m[PlainEntry(first.props).name := PlainEntry(first.props)], ValueItems(x), 1, global)
  {
    assert ValueItems(x)[0] == NotAValidator(OwnProps(x)[0].val);
  }

  /** A plain object filed by `addValidator` makes every run of its name throw. */
  lemma PlainEntryThrows(env: Env, check: CheckFn, props: Record, value: Value, option: Value, rec: Record,
                         path: string, loc: seq<string>)
    ensures Run(env, check, PlainEntry(props), value, option, rec, path, loc) == (Throw(NotAFunction), rec)
  {
  }

  // Dispatch

  /**
   * What running `v` on `value` with `option` does: its verdict and the record it leaves.
   * `path` is the rule key the modifier is bound to, `loc` where the value was read from.
   */
  function Run(env: Env, check: CheckFn, v: Validator, value: Value, option: Value, rec: Record,
               path: string, loc: seq<string>): (r: (Verdict, Record))
  {
    match v.body
    case Must => (GlobalValidators.Must(value, option), rec)
    case Typeof => (GlobalValidators.TypeOfCheck(value, option), rec)
    case Exact => (GlobalValidators.Exact(value, option), rec)
    case Min => (GlobalValidators.Min(env.num, value, option), rec)
    case Max => (GlobalValidators.Max(env.num, value, option), rec)
    case MinLength => (GlobalValidators.MinLength(env.num, value, option), rec)
    case MaxLength => (GlobalValidators.MaxLength(env.num, value, option), rec)
    case SelectMin => (GlobalValidators.SelectMin(env.num, value, option), rec)
    case SelectMax => (GlobalValidators.SelectMax(env.num, value, option), rec)
    case ArrayType => (ArrayValidators.ArrayCheck(value, option), rec)
    case ArraySize => (ArrayValidators.ArraySize(env, value, option), rec)
    case InArray => (ArrayValidators.InArraySpec(env, value, option), rec)
    case NotInArray => (ArrayValidators.NotInArraySpec(env, value, option), rec)
    case ArrayValues =>
      var e := ArrayValidators.ArrayValuesSpec(check, env.num, value, option, path);
      (e.verdict, ApplyWrite(rec, e.write))
    case ObjectValues =>
      var e := ObjectValidators.ObjectValuesSpec(check, env.num, value, option, loc);
      (e.verdict, ApplyWrite(rec, e.write))
    case ObjectValuesType => (ObjectValidators.ObjectValuesType(value, option), rec)
    case BooleanType =>
      var e := StringValidators.BooleanSpec(value, path);
      (e.verdict, ApplyWrite(rec, e.write))
    case Same => (UtilsValidators.Same(value, option, rec), rec)
    case CallerDefined(id) => env.custom(id, value, option, rec, path)
    case NotCallable => (Throw(NotAFunction), rec)
  }

  /** What calling the missing `validator.validator` throws. */
  const NotAFunction := Exception(TypeError, "validator.validator is not a function")

  /** Bodies that neither call back into the engine nor write anything. */
  predicate ReadOnly(b: Body)
  {
    !(b.ArrayValues? || b.ObjectValues? || b.BooleanType? || b.CallerDefined?)
  }

  /** Read-only bodies leave the record as it was; `boolean` only writes a boolean at its own path. */
  lemma RunFrame(env: Env, check: CheckFn, v: Validator, value: Value, option: Value, rec: Record, path: string, loc: seq<string>)
    ensures ReadOnly(v.body) ==> Run(env, check, v, value, option, rec, path, loc).1 == rec
    ensures v.body.BooleanType? && !Run(env, check, v, value, option, rec, path, loc).0.Pass? ==>
      Run(env, check, v, value, option, rec, path, loc).1 == rec
    ensures v.body.BooleanType? && !HasDotNotation(path) ==>
      forall k | k != path :: Get(Run(env, check, v, value, option, rec, path, loc).1, k) == Get(rec, k)
  {
    if v.body.BooleanType? && !HasDotNotation(path) {
      FlatPath(path);
      forall k | k != path
        ensures Get(Run(env, check, v, value, option, rec, path, loc).1, k) == Get(rec, k)
      {
        var e := StringValidators.BooleanSpec(value, path);
        if e.write.WriteAt? {
          PathSetOthers(rec, path, e.write.v, k);
        }
      }
    }
  }

  /** Runs a validator's body on the record the modifier holds. */
  method Invoke(env: Env, check: CheckFn, v: Validator, value: Value, option: Value,
                modifier: ObjectModifier, loc: seq<string>) returns (verdict: Verdict)
    modifies modifier.data
    ensures (verdict, modifier.data.props) == Run(env, check, v, value, option, old(modifier.data.props), modifier.path, loc)
  {
    if ReadOnly(v.body) {
      RunFrame(env, check, v, value, option, modifier.data.props, modifier.path, loc);
      verdict := Run(env, check, v, value, option, modifier.data.props, modifier.path, loc).0;
    } else {
      verdict := InvokeWriting(env, check, v, value, option, modifier, loc);
    }
  }

  /** The bodies that write through the modifier or call back into the engine. */
  method InvokeWriting(env: Env, check: CheckFn, v: Validator, value: Value, option: Value,
                       modifier: ObjectModifier, loc: seq<string>) returns (verdict: Verdict)
    requires !ReadOnly(v.body)
    modifies modifier.data
    ensures (verdict, modifier.data.props) == Run(env, check, v, value, option, old(modifier.data.props), modifier.path, loc)
  {
    RunWriting(env, check, v, value, option, modifier.data.props, modifier.path, loc);
    match v.body {
      case ArrayValues =>
        verdict := ArrayValidators.ArrayValues(check, env.num, value, option, modifier);
      case ObjectValues =>
        verdict := ObjectValidators.ObjectValues(check, env.num, value, option, modifier.data, loc);
      case BooleanType =>
        verdict := StringValidators.Boolean(value, modifier);
      case CallerDefined(id) =>
        verdict := InvokeCaller(env, id, value, option, modifier);
    }
  }

  /** `Run` on the bodies that write, one case at a time. */
  lemma RunWriting(env: Env, check: CheckFn, v: Validator, value: Value, option: Value, rec: Record,
                   path: string, loc: seq<string>)
    ensures var r := Run(env, check, v, value, option, rec, path, loc);
      var e := ArrayValidators.ArrayValuesSpec(check, env.num, value, option, path);
      v.body.ArrayValues? ==> r == (e.verdict, ApplyWrite(rec, e.write))
    ensures var r := Run(env, check, v, value, option, rec, path, loc);
      var e := ObjectValidators.ObjectValuesSpec(check, env.num, value, option, loc);
      v.body.ObjectValues? ==> r == (e.verdict, ApplyWrite(rec, e.write))
    ensures var r := Run(env, check, v, value, option, rec, path, loc);
      var e := StringValidators.BooleanSpec(value, path);
      v.body.BooleanType? ==> r == (e.verdict, ApplyWrite(rec, e.write))
    ensures var r := Run(env, check, v, value, option, rec, path, loc);
      v.body.CallerDefined? ==> r == env.custom(v.body.id, value, option, rec, path)
  {
  }

  /** A caller's validator: the host runs it on the record the modifier holds. */
  method InvokeCaller(env: Env, id: nat, value: Value, option: Value, modifier: ObjectModifier) returns (verdict: Verdict)
    modifies modifier.data
    ensures (verdict, modifier.data.props) == env.custom(id, value, option, old(modifier.data.props), modifier.path)
  {
    var (vd, rec) := env.custom(id, value, option, modifier.data.props, modifier.path);
    modifier.data.props := rec;
    verdict := vd;
  }

  /** The global registry: one per program, shared by every instance. */
  class GlobalRegistry {
    var validators: Validators

    constructor()
      ensures validators == InitialGlobals()
    {
      validators := InitialGlobals();
    }

    /** `Abolish.addGlobalValidator`: an entry stored before the throw stays stored. */
    method AddGlobalValidator(arg: ValidatorArg) returns (failure: Option<Exception>)
      modifies this
      ensures validators == Add(old(validators), arg, true).m
      ensures failure == Add(old(validators), arg, true).failure
    {
      var r := Add(validators, arg, true);
      validators := r.m;
      failure := r.failure;
    }

    /** `Abolish.addGlobalValidators`: earlier items stay registered when a later one is refused. */
    method AddGlobalValidators(args: ValidatorsArg) returns (failure: Option<Exception>)
      modifies this
      ensures validators == AddAll(old(validators), args, true).m
      ensures failure == AddAll(old(validators), args, true).failure
    {
      var items: seq<ValidatorArg>;
      match args {
        case Listed(xs) =>
          items := xs;
        case Unlisted(x) =>
          if !x.Arr? && !x.Obj? {
            failure := AddAll(validators, args, true).failure;
            return;
          }
          items := ValueItems(x);
      }
      var i := 0;
      ghost var start := validators;
      while i < |items|
        invariant i <= |items|
        invariant AddAllFrom(start, items, 0, true) == AddAllFrom(validators, items, i, true)
        invariant AddAll(start, args, true) == AddAllFrom(start, items, 0, true)
        decreases |items| - i
      {
        var f := AddGlobalValidator(items[i]);
        if f.Some? {
          failure := f;
          return;
        }
        i := i + 1;
      }
      failure := None;
    }
  }
}
