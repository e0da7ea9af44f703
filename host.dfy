/**
 * What the model takes from the runtime around the library: number parsing,
 * lodash's startCase, calls of functions written by the caller, the bodies of
 * validators registered by the caller, the depth of the call stack, the stack
 * trace of a thrown exception and the parameter count of a function.
 */
module Host {
  import opened Js
  import opened Results

  /** The result of calling a caller-supplied function. */
  datatype CallResult = Returned(v: Value) | Threw(ex: Exception)

  /** The body of a caller-registered validator: `(value, option, record, path)` to a verdict and the record it leaves. */
  type CustomBody = (nat, Value, Value, Record, string) -> (Verdict, Record)

  /**
   * `stack` is the `stack` property the runtime gives a thrown exception, and
   * `arity` the `length` (number of declared parameters) of a caller's function.
   */
  datatype Env = Env(
    num: NumberParser,
    startCase: string -> string,
    call: (nat, seq<Value>) -> CallResult,
    custom: CustomBody,
    maxDepth: nat,
    stack: Exception -> Value,
    arity: nat -> nat)

  /** The `n`-th argument, undefined when missing. */
  function Arg(args: seq<Value>, n: nat): Value
  {
    if n < |args| then args[n] else Undef
  }

  /** Calls a function value. The two predicates built by the helpers are known. */
  function Apply(env: Env, f: FnRef, args: seq<Value>): (r: CallResult)
    ensures f.IsUndefinedFn? ==> r == Returned(Bool(Arg(args, 0) == Undef))
    ensures f.IsNotDefinedFn? ==> r == Returned(Bool(Arg(args, 0) == Undef || Arg(args, 0) == Null))
  {
    match f
    case IsUndefinedFn => Returned(Bool(Arg(args, 0).Undef?))
    case IsNotDefinedFn => Returned(Bool(Arg(args, 0).Undef? || Arg(args, 0).Null?))
    case HostFn(id) => env.call(id, args)
  }

  /** `f.length`: the two predicates built by the helpers declare one parameter. */
  function Arity(env: Env, f: FnRef): (n: nat)
    ensures !f.HostFn? ==> n == 1
  {
    match f
    case HostFn(id) => env.arity(id)
    case _ => 1
  }

  /** A call's result as an outcome: a throw propagates. */
  function Called(r: CallResult): (o: Outcome<Value>)
    ensures r.Returned? <==> o.Normal?
    ensures o.Normal? ==> o.value == r.v
    ensures o.Abrupt? ==> o.ex == r.ex
  {
    match r
    case Returned(v) => Normal(v)
    case Threw(ex) => Abrupt(ex)
  }
}
