/** The object validators: objectValues and objectValuesType. */
module ObjectValidators {
  import opened Js
  import opened Results
  import opened AbolishErrors
  import opened TypesChecker
  import opened Effects
  import opened Inbuilt
  import Functions
  import ArrayValidators

  const ObjectValuesError := ":param object values does not match the expected types"

  /** The rule each value is checked against: strings and arrays merged with `Rule`, anything else as given. */
  function ValueRule(num: NumberParser, rule: Value): Value
  {
    if rule.Str? || rule.Arr? then Obj(Functions.RuleOf(num, rule)) else rule
  }

  /** `obj[key] = x` for the `i`-th own property of an object or an array. */
  function WriteOwn(v: Value, i: nat, x: Value): (w: Value)
    requires v.Obj? || v.Arr?
    requires i < |OwnProps(v)|
    ensures w.Obj? == v.Obj? && w.Arr? == v.Arr?
    ensures |OwnProps(w)| == |OwnProps(v)|
    ensures Keys(OwnProps(w)) == Keys(OwnProps(v))
    ensures OwnProps(w)[i].val == x
    ensures forall j | 0 <= j < |OwnProps(v)| && j != i :: OwnProps(w)[j] == OwnProps(v)[j]
  {
    match v
    case Obj(props) =>
      var w := Obj(props[i := Prop(props[i].key, x)]);
      KeysPositional(props, props[i := Prop(props[i].key, x)]);
      w
    case Arr(items) =>
      var w := Arr(items[i := x]);
      KeysPositional(IndexProps(items), IndexProps(items[i := x]));
      w
  }

  lemma KeysPositional(a: Record, b: Record)
    requires |a| == |b| && forall j | 0 <= j < |a| :: a[j].key == b[j].key
    ensures Keys(a) == Keys(b)
  {
    forall j | 0 <= j < |a| ensures Keys(a)[j] == Keys(b)[j] {
      JsRecords.KeysIndex(a, j);
      JsRecords.KeysIndex(b, j);
    }
  }

  /** How the per-key checks stop. */
  datatype Status = AllPassed | KeyFailed(key: string, e: ValidationError) | KeyThrew(ex: Exception)

  /** Where the loop stopped, the object as it then was, and how many keys had been written back. */
  datatype Entries = Entries(status: Status, obj: Value, written: nat)

  /**
   * The checks of the own properties from index `i` on, in for-in order. `cur` is the object
   * with the values of the first `i` keys already replaced by their validated values.
   */
  function EntriesFrom(check: CheckFn, orig: Value, rule: Value, i: nat, cur: Value): (e: Entries)
    requires i <= |OwnProps(orig)| && |OwnProps(cur)| == |OwnProps(orig)|
    requires cur.Obj? || cur.Arr? || cur.Null?
    ensures |OwnProps(e.obj)| == |OwnProps(orig)|
    ensures i <= e.written <= |OwnProps(orig)|
    ensures e.status.AllPassed? ==> e.written == |OwnProps(orig)|
    decreases |OwnProps(orig)| - i
  {
    if i == |OwnProps(orig)| then Entries(AllPassed, cur, i)
    else
      var p := OwnProps(orig)[i];
      match check(p.val, rule)
      case Abrupt(ex) => Entries(KeyThrew(ex), cur, i)
      case Normal(res) =>
        if res.error.Some? then Entries(KeyFailed(p.key, res.error.value), cur, i)
        else EntriesFrom(check, orig, rule, i + 1, WriteOwn(cur, i, res.validated))
  }

  /** What the stop means to the engine: a failure carries the nested error with code `key|<key>`. */
  function StatusVerdict(s: Status): Verdict
  {
    match s
    case AllPassed => Undefined
    case KeyThrew(ex) => Throw(ex)
    case KeyFailed(key, e) => Custom(ErrorInfo(e.message, StoredData(ErrorValue(e)), "key|" + key))
  }

  /** `objectValues`: each value is checked against the rule and replaced in place by its validated value. */
  function ObjectValuesSpec(check: CheckFn, num: NumberParser, obj: Value, rule: Value, loc: seq<string>): (e: Effect)
    ensures (obj.Obj? || obj.Arr? || obj.Null?) && (rule.Str? || rule.Arr? || rule.Obj? || rule.Null?) ==> !e.verdict.Fail?
  {
    var first := AssertType(obj, One("object"), "[objectValues] value");
    var second := AssertType(rule, ArrayValidators.RuleTypes, "[objectValues] rule");
    if first.Abrupt? then Only(Throw(first.ex))
    else if second.Abrupt? then Only(Throw(second.ex))
    else
      var end := EntriesFrom(check, obj, ValueRule(num, rule), 0, obj);
      Effect(StatusVerdict(end.status), if end.written > 0 then WriteAt(loc, end.obj) else NoWrite)
  }

  /**
   * The object is the value stored at `loc` in `record`; each validated value is written
   * into it there before the next key is checked.
   */
  method ObjectValues(check: CheckFn, num: NumberParser, obj: Value, rule: Value, record: JsObject, loc: seq<string>)
      returns (r: Verdict)
    modifies record
    ensures r == ObjectValuesSpec(check, num, obj, rule, loc).verdict
    ensures record.props == ApplyWrite(old(record.props), ObjectValuesSpec(check, num, obj, rule, loc).write)
  {
    var first := AssertType(obj, One("object"), "[objectValues] value");
    if first.Abrupt? {
      return Throw(first.ex);
    }
    var second := AssertType(rule, ArrayValidators.RuleTypes, "[objectValues] rule");
    if second.Abrupt? {
      return Throw(second.ex);
    }
    var nested := rule;
    if rule.Str? || rule.Arr? {
      var merged := Functions.Rule(num, rule);
      nested := Obj(merged);
    }
    r := WriteBackEntries(check, obj, nested, record, loc);
  }

  /** The for-in loop of `objectValues`: checks each own value and writes the object back after each key. */
  method WriteBackEntries(check: CheckFn, obj: Value, nested: Value, record: JsObject, loc: seq<string>)
      returns (r: Verdict)
    requires obj.Obj? || obj.Arr? || obj.Null?
    modifies record
    ensures var end := EntriesFrom(check, obj, nested, 0, obj);
      r == StatusVerdict(end.status) &&
      record.props == ApplyWrite(old(record.props), if end.written > 0 then WriteAt(loc, end.obj) else NoWrite)
  {
    var entries := OwnProps(obj);
    var cur := obj;
    ghost var before := record.props;
    for i := 0 to |entries|
      invariant |OwnProps(cur)| == |entries|
      invariant cur.Obj? || cur.Arr? || cur.Null?
      invariant EntriesFrom(check, obj, nested, 0, obj) == EntriesFrom(check, obj, nested, i, cur)
      invariant record.props == if i == 0 then before else ApplyWrite(before, WriteAt(loc, cur))
    {
      var key := entries[i].key;
      var result := check(entries[i].val, nested);
      if result.Abrupt? {
        return Throw(result.ex);
      }
      if result.value.error.Some? {
        var err := result.value.error.value;
        return Custom(ErrorInfo(err.message, StoredData(ErrorValue(err)), "key|" + key));
      }
      var written := WriteOwn(cur, i, result.value.validated);
      if i > 0 {
        WriteTwice(before, loc, cur, written);
      }
      cur := written;
      record.props := ApplyWrite(record.props, WriteAt(loc, cur));
    }
    r := Undefined;
  }

  lemma WriteTwice(r: Record, loc: seq<string>, a: Value, b: Value)
    ensures ApplyWrite(ApplyWrite(r, WriteAt(loc, a)), WriteAt(loc, b)) == ApplyWrite(r, WriteAt(loc, b))
  {
    if loc != [] {
      PathSetTwice(r, loc, a, b);
    }
  }

  /** `Object.values(obj)`: undefined and null cannot be converted. */
  function OwnValues(obj: Value): (r: Outcome<seq<Value>>)
    ensures r.Abrupt? <==> obj.Undef? || obj.Null?
    ensures r.Normal? ==> |r.value| == |OwnProps(obj)| && forall i | 0 <= i < |r.value| :: r.value[i] == OwnProps(obj)[i].val
  {
    if obj.Undef? || obj.Null? then Abrupt(Exception(TypeError, "Cannot convert undefined or null to object"))
    else Normal(seq(|OwnProps(obj)|, i requires 0 <= i < |OwnProps(obj)| => OwnProps(obj)[i].val))
  }

  const ValuesTypes := AnyOf([Str("string"), Str("array")])

  /** `objectValuesType`: every own value must be of one of the types; an object without values passes. */
  function ObjectValuesType(obj: Value, types: Value): (r: Verdict)
    ensures !(obj.Obj? || obj.Arr? || obj.Null?) ==> r == Throw(Exception(TypeError, AssertMessage(obj, One("object"), "[objectValues] object")))
    ensures (obj.Obj? || obj.Arr?) && (types.Str? || types.Arr?) ==>
      (r.Pass? <==> forall i | 0 <= i < |OwnProps(obj)| :: IsType(OwnProps(obj)[i].val, AsList(ArrayValidators.OptionTypes(types))))
    ensures (obj.Obj? || obj.Arr?) && (types.Str? || types.Arr?) ==> r.Pass? || r.Fail?
  {
    var first := AssertType(obj, One("object"), "[objectValues] object");
    var second := AssertType(types, ValuesTypes, "[objectValues] types");
    if first.Abrupt? then Throw(first.ex)
    else if second.Abrupt? then Throw(second.ex)
    else
      match OwnValues(obj)
      case Abrupt(ex) => Throw(ex)
      case Normal(values) =>
        ArrayIsTypeOfSpec(values, ArrayValidators.OptionTypes(types));
        FromBool(ArrayIsTypeOf(values, ArrayValidators.OptionTypes(types)))
  }

  // Properties

  /** When every value passes, each key keeps its place and holds the value its check validated. */
  lemma {:induction false} EntriesPassed(check: CheckFn, orig: Value, rule: Value, i: nat, cur: Value)
    requires i <= |OwnProps(orig)| && |OwnProps(cur)| == |OwnProps(orig)|
    requires cur.Obj? || cur.Arr? || cur.Null?
    requires Keys(OwnProps(cur)) == Keys(OwnProps(orig))
    requires EntriesFrom(check, orig, rule, i, cur).status.AllPassed?
    decreases |OwnProps(orig)| - i
    ensures var end := EntriesFrom(check, orig, rule, i, cur).obj;
      Keys(OwnProps(end)) == Keys(OwnProps(orig))
      && (forall j | 0 <= j < i :: OwnProps(end)[j] == OwnProps(cur)[j])
      && forall j | i <= j < |OwnProps(orig)| ::
           check(OwnProps(orig)[j].val, rule) == Normal(Success(OwnProps(end)[j].val))
  {
    if i < |OwnProps(orig)| {
      var res := check(OwnProps(orig)[i].val, rule).value;
      var next := WriteOwn(cur, i, res.validated);
      EntriesPassed(check, orig, rule, i + 1, next);
    }
  }

  /** A failure names the first key whose check failed; every earlier key passed. */
  lemma {:induction false} EntriesFailed(check: CheckFn, orig: Value, rule: Value, i: nat, cur: Value) returns (j: nat)
    requires i <= |OwnProps(orig)| && |OwnProps(cur)| == |OwnProps(orig)|
    requires cur.Obj? || cur.Arr? || cur.Null?
    requires EntriesFrom(check, orig, rule, i, cur).status.KeyFailed?
    decreases |OwnProps(orig)| - i
    ensures i <= j < |OwnProps(orig)|
    ensures EntriesFrom(check, orig, rule, i, cur).status.key == OwnProps(orig)[j].key
    ensures EntriesFrom(check, orig, rule, i, cur).written == j
    ensures check(OwnProps(orig)[j].val, rule).Normal?
    ensures check(OwnProps(orig)[j].val, rule).value.error == Some(EntriesFrom(check, orig, rule, i, cur).status.e)
    ensures forall k | i <= k < j :: check(OwnProps(orig)[k].val, rule).Normal?
                                     && check(OwnProps(orig)[k].val, rule).value.error.None?
  {
    var res := check(OwnProps(orig)[i].val, rule).value;
    if res.error.Some? {
      j := i;
    } else {
      j := EntriesFailed(check, orig, rule, i + 1, WriteOwn(cur, i, res.validated));
    }
  }

  /** Keys checked before a failure keep their validated values in the record. */
  lemma EarlierWritesSurvive(check: CheckFn, num: NumberParser, obj: Value, rule: Value, loc: seq<string>)
    requires obj.Obj? || obj.Arr?
    requires rule.Str? || rule.Arr? || rule.Obj? || rule.Null?
    requires EntriesFrom(check, obj, ValueRule(num, rule), 0, obj).status.KeyFailed?
    requires EntriesFrom(check, obj, ValueRule(num, rule), 0, obj).written > 0
    ensures ObjectValuesSpec(check, num, obj, rule, loc).write == WriteAt(loc, EntriesFrom(check, obj, ValueRule(num, rule), 0, obj).obj)
    ensures ObjectValuesSpec(check, num, obj, rule, loc).verdict.Custom?
    ensures ObjectValuesSpec(check, num, obj, rule, loc).verdict.err.code
            == "key|" + EntriesFrom(check, obj, ValueRule(num, rule), 0, obj).status.key
  {
  }

  /** An object with no values passes `objectValuesType` for any string or array of types. */
  lemma ObjectValuesTypeEmpty(types: Value)
    requires types.Str? || types.Arr?
    ensures ObjectValuesType(Obj([]), types).Pass?
  {
  }
}
