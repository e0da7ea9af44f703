/** Path access and object helpers used throughout the engine. */
module Inbuilt {
  import opened Js
  import opened JsStr
  import opened Results
  import JsRecords

  // Path walks over nested records, as lodash's get/set/has/unset do for dotted paths.

  function SplitPath(path: string): (segs: seq<string>)
    ensures |segs| >= 1
  {
    Split(path, '.')
  }

  /** `get(v, path)`: follows the segments through nested values, undefined once one is missing. */
  function PathGet(v: Value, segs: seq<string>): Value
    decreases segs
  {
    if segs == [] then v
    else if v.Undef? || v.Null? then Undef
    else PathGet(Get(OwnProps(v), segs[0]), segs[1..])
  }

  /**
   * lodash's `castPath` for a string path: a path without a dot, or one that
   * already is a key of the object, names that key; any other is split at its dots.
   */
  function CastPath(obj: Record, path: string): (segs: seq<string>)
    ensures |segs| >= 1
  {
    if !HasDotNotation(path) || HasKey(obj, path) then [path] else SplitPath(path)
  }

  /**
   * lodash's `castPath` for any path value: a string as above, an array one
   * segment per item (each by its string form), anything else one key.
   */
  function KeyPath(obj: Record, path: Value): (segs: seq<string>)
    ensures path.Arr? ==> |segs| == |path.items|
    ensures !path.Arr? ==> |segs| >= 1
  {
    match path
    case Str(s) => CastPath(obj, s)
    case Arr(items) => seq(|items|, i requires 0 <= i < |items| => ToJsString(items[i]))
    case _ => [ToJsString(path)]
  }

  /** lodash's `get(obj, path)`: the walk along `KeyPath`; an empty path finds nothing. */
  function LodashGet(obj: Record, path: Value): Value
  {
    var segs := KeyPath(obj, path);
    if segs == [] then Undef else PathGet(Obj(obj), segs)
  }

  /** A string path without a dot, or one that already is a key (dots and all), reads that key. */
  lemma LiteralKeyFirst(obj: Record, path: string)
    requires !HasDotNotation(path) || HasKey(obj, path)
    ensures LodashGet(obj, Str(path)) == Get(obj, path)
  {
    assert KeyPath(obj, Str(path)) == [path];
    calc {
      PathGet(Obj(obj), [path]);
      PathGet(Get(OwnProps(Obj(obj)), path), [path][1..]);
      { assert [path][1..] == []; }
      PathGet(Get(obj, path), []);
    }
  }

  /** A dotted string path that is not a key is walked segment by segment. */
  lemma DottedPathWalked(obj: Record, path: string)
    requires HasDotNotation(path) && !HasKey(obj, path)
    ensures LodashGet(obj, Str(path)) == PathGet(Obj(obj), SplitPath(path))
  {
  }

  /** An array path walks its items as segments, and an empty one finds nothing. */
  lemma ArrayPathWalked(obj: Record, segs: seq<string>)
    ensures var path := Arr(seq(|segs|, i requires 0 <= i < |segs| => Str(segs[i])));
      LodashGet(obj, path) == if segs == [] then Undef else PathGet(Obj(obj), segs)
  {
    var path := Arr(seq(|segs|, i requires 0 <= i < |segs| => Str(segs[i])));
    assert KeyPath(obj, path) == segs;
  }

  /** `set(obj, path, x)`: writes `x` at the path, creating intermediate objects. */
  function PathSet(r: Record, segs: seq<string>, x: Value): Record
    requires |segs| >= 1
    decreases segs
  {
    if |segs| == 1 then Put(r, segs[0], x)
    else
      var child := Get(r, segs[0]);
      Put(r, segs[0], Obj(PathSet(if child.Obj? then child.props else [], segs[1..], x)))
  }

  /** `has(obj, path)`: every segment is an own key of the object reached so far. */
  predicate PathHas(r: Record, segs: seq<string>)
    requires |segs| >= 1
    decreases segs
  {
    if |segs| == 1 then HasKey(r, segs[0])
    else
      var child := Get(r, segs[0]);
      child.Obj? && PathHas(child.props, segs[1..])
  }

  /** `unset(obj, path)`: deletes the last segment of the path if the path leads to it. */
  function PathUnset(r: Record, segs: seq<string>): Record
    requires |segs| >= 1
    decreases segs
  {
    if |segs| == 1 then Delete(r, segs[0])
    else
      var child := Get(r, segs[0]);
      if child.Obj? then Put(r, segs[0], Obj(PathUnset(child.props, segs[1..]))) else r
  }

  /** A path without a dot is a single segment. */
  lemma FlatPath(path: string)
    requires !HasDotNotation(path)
    ensures SplitPath(path) == [path]
  {
    HasDotNotationSpec(path);
    SplitNone(path, '.', 0, 0);
    assert path[0..] == path;
  }

  /** `hasDotNotation(path)`. */
  predicate HasDotNotation(path: string)
  {
    IndexOf(path, ".") != -1
  }

  lemma HasDotNotationSpec(path: string)
    ensures HasDotNotation(path) <==> '.' in path
  {
    if '.' in path {
      var j :| 0 <= j < |path| && path[j] == '.';
      assert MatchAt(path, ".", j) by { assert path[j..j + 1] == [path[j]]; }
    }
    if HasDotNotation(path) {
      var i := IndexOf(path, ".");
      assert path[i] == path[i..i + 1][0];
    }
  }

  /** `abolish_Get(obj, path, flag)`: lodash `get` only without a flag and with a dot in the path. */
  function AbolishGet(obj: Record, path: string, flag: Option<bool>): (v: Value)
    ensures flag.Some? || !HasDotNotation(path) || HasKey(obj, path) ==> v == Get(obj, path)
    ensures flag.None? && HasDotNotation(path) && !HasKey(obj, path) ==> v == PathGet(Obj(obj), SplitPath(path))
  {
    if !flag.None? || !HasDotNotation(path) then Get(obj, path)
    else if HasKey(obj, path) then LiteralKeyFirst(obj, path); LodashGet(obj, Str(path))
    else LodashGet(obj, Str(path))
  }

  /** `abolish_Set(obj, path, value, flag)`: same condition as the getter; the object is written in place. */
  method AbolishSet(obj: JsObject, path: string, value: Value, flag: Option<bool>) returns (r: JsObject)
    modifies obj
    ensures r == obj
    ensures flag.None? && HasDotNotation(path) ==> obj.props == PathSet(old(obj.props), SplitPath(path), value)
    ensures flag.Some? || !HasDotNotation(path) ==> obj.props == Put(old(obj.props), path, value)
  {
    if flag.None? && HasDotNotation(path) {
      obj.props := PathSet(obj.props, SplitPath(path), value);
    } else {
      obj.props := Put(obj.props, path, value);
    }
    r := obj;
  }

  /** Some key contains a dot (`keys.some(hasDotNotation)`). */
  predicate AnyDotted(keys: seq<string>)
  {
    exists i | 0 <= i < |keys| :: HasDotNotation(keys[i])
  }

  /** The value `abolish_Pick` stores for one key. */
  function Picked(obj: Record, key: string, dotted: bool): Value
  {
    if dotted then AbolishGet(obj, key, None) else Get(obj, key)
  }

  function PickFrom(obj: Record, keys: seq<string>, dotted: bool): Record
  {
    if keys == [] then []
    else
      var k := keys[|keys| - 1];
      Put(PickFrom(obj, keys[..|keys| - 1], dotted), k, Picked(obj, k, dotted))
  }

  function PickOf(obj: Record, keys: seq<string>, flag: Option<bool>): Record
  {
    PickFrom(obj, keys, if flag.None? then AnyDotted(keys) else flag.value)
  }

  /** `abolish_Pick(obj, keys, flag)`. */
  method Pick(obj: Record, keys: seq<string>, flag: Option<bool>) returns (picked: Record)
    ensures picked == PickOf(obj, keys, flag)
  {
    picked := [];
    var hasDotKeys := if flag.None? then AnyDotted(keys) else flag.value;
    for i := 0 to |keys|
      invariant picked == PickFrom(obj, keys[..i], hasDotKeys)
    {
      assert keys[..i + 1][..i] == keys[..i];
      var prop := keys[i];
      if hasDotKeys {
        picked := Put(picked, prop, AbolishGet(obj, prop, None));
      } else {
        picked := Put(picked, prop, Get(obj, prop));
      }
    }
    assert keys[..|keys|] == keys;
  }

  /** The picked object has exactly the listed keys; a dotted key is read by path but stored under its literal name. */
  lemma {:induction false} PickFromSpec(obj: Record, keys: seq<string>, dotted: bool, k: string)
    ensures HasKey(PickFrom(obj, keys, dotted), k) <==> k in keys
    ensures k in keys ==> Get(PickFrom(obj, keys, dotted), k) == Picked(obj, k, dotted)
  {
    if keys != [] {
      var init := keys[..|keys| - 1];
      var last := keys[|keys| - 1];
      PickFromSpec(obj, init, dotted, k);
      JsRecords.PutProps(PickFrom(obj, init, dotted), last, Picked(obj, last, dotted));
      assert keys == init + [last];
    }
  }

  /** With distinct keys, the picked object lists them in the given order. */
  lemma {:induction false} PickFromKeys(obj: Record, keys: seq<string>, dotted: bool)
    requires forall i, j | 0 <= i < j < |keys| :: keys[i] != keys[j]
    ensures Keys(PickFrom(obj, keys, dotted)) == keys
  {
    if keys != [] {
      var init := keys[..|keys| - 1];
      var last := keys[|keys| - 1];
      PickFromKeys(obj, init, dotted);
      PickFromSpec(obj, init, dotted, last);
      JsRecords.PutProps(PickFrom(obj, init, dotted), last, Picked(obj, last, dotted));
    }
  }

  /** `abolish_Omit(obj, keys)`, over the first `n` properties of `obj`. */
  function OmitFrom(obj: Record, keys: seq<string>, n: nat): Record
    requires n <= |obj|
  {
    if n == 0 then []
    else
      var k := obj[n - 1].key;
      var rest := OmitFrom(obj, keys, n - 1);
      if k in keys then rest else Put(rest, k, Get(obj, k))
  }

  function OmitOf(obj: Record, keys: seq<string>): Record
  {
    OmitFrom(obj, keys, |obj|)
  }

  /** `abolish_Omit(obj, keys)`: a copy of `obj` without the listed keys. */
  method Omit(obj: Record, keys: seq<string>) returns (picked: Record)
    ensures picked == OmitOf(obj, keys)
  {
    picked := [];
    for i := 0 to |obj|
      invariant picked == OmitFrom(obj, keys, i)
    {
      var prop := obj[i].key;
      if prop !in keys {
        picked := Put(picked, prop, Get(obj, prop));
      }
    }
  }

  /** Omit keeps every key that is not listed, with its value, and nothing else. */
  lemma {:induction false} OmitFromSpec(obj: Record, keys: seq<string>, n: nat, k: string)
    requires n <= |obj|
    ensures HasKey(OmitFrom(obj, keys, n), k) <==> k !in keys && HasKey(obj[..n], k)
    ensures HasKey(OmitFrom(obj, keys, n), k) ==> Get(OmitFrom(obj, keys, n), k) == Get(obj, k)
  {
    if n > 0 {
      var key := obj[n - 1].key;
      OmitFromSpec(obj, keys, n - 1, k);
      JsRecords.PutProps(OmitFrom(obj, keys, n - 1), key, Get(obj, key));
      JsRecords.HasKeyIndex(obj[..n], k);
      JsRecords.HasKeyIndex(obj[..n - 1], k);
      assert forall i | 0 <= i < n - 1 :: obj[..n][i] == obj[..n - 1][i];
      assert obj[..n][n - 1] == obj[n - 1];
    }
  }

  lemma OmitSpec(obj: Record, keys: seq<string>, k: string)
    ensures HasKey(OmitOf(obj, keys), k) <==> k !in keys && HasKey(obj, k)
    ensures HasKey(OmitOf(obj, keys), k) ==> Get(OmitOf(obj, keys), k) == Get(obj, k)
  {
    OmitFromSpec(obj, keys, |obj|, k);
    assert obj[..|obj|] == obj;
  }

  /** The copy `abolish_Omit` builds never holds a key twice. */
  lemma {:induction false} OmitDistinct(obj: Record, keys: seq<string>, n: nat)
    requires n <= |obj|
    ensures Distinct(OmitFrom(obj, keys, n))
  {
    if n > 0 {
      OmitDistinct(obj, keys, n - 1);
      var rest := OmitFrom(obj, keys, n - 1);
      JsRecords.PutDistinct(rest, obj[n - 1].key, Get(obj, obj[n - 1].key));
    }
  }

  /** `abolish_UpperFirst(str)`: indexing an empty string gives undefined, which has no `toUpperCase`. */
  function UpperFirst(str: string): (r: Outcome<string>)
    ensures r.Normal? <==> str != ""
    ensures r.Normal? ==> |r.value| == |str| && r.value[0] == ToUpperChar(str[0]) && r.value[1..] == str[1..]
  {
    if str == "" then Abrupt(Exception(TypeError, "Cannot read properties of undefined (reading 'toUpperCase')"))
    else Normal([ToUpperChar(str[0])] + str[1..])
  }

  /**
   * `abolish_StartCase(str, instance)`. `useStartCase` is the instance's
   * `useStartCaseInErrors` setting, or None when no instance is passed.
   */
  function StartCase(startCase: string -> string, str: string, useStartCase: Option<bool>): (r: string)
    ensures useStartCase == Some(false) ==> r == str
    ensures useStartCase != Some(false) ==> r == startCase(str)
  {
    if useStartCase.Some? then (if useStartCase.value then startCase(str) else str) else startCase(str)
  }

  // Path lemmas

  /** After a path write, reading the same path gives the written value. */
  lemma {:induction false} PathSetGet(r: Record, segs: seq<string>, x: Value)
    requires |segs| >= 1
    decreases segs
    ensures PathGet(Obj(PathSet(r, segs, x)), segs) == x
  {
    JsRecords.PutProps(r, segs[0], x);
    if |segs| > 1 {
      var child := Get(r, segs[0]);
      var inner := if child.Obj? then child.props else [];
      PathSetGet(inner, segs[1..], x);
      JsRecords.PutProps(r, segs[0], Obj(PathSet(inner, segs[1..], x)));
    }
  }

  /** A flat write leaves every other key as it was. */
  lemma PathSetOthers(r: Record, key: string, x: Value, other: string)
    requires other != key
    ensures Get(PathSet(r, [key], x), other) == Get(r, other)
  {
    JsRecords.PutProps(r, key, x);
  }

  /** After unsetting a path, it is no longer present. */
  lemma {:induction false} PathUnsetHas(r: Record, segs: seq<string>)
    requires |segs| >= 1
    decreases segs
    ensures !PathHas(PathUnset(r, segs), segs)
  {
    if |segs| == 1 {
      JsRecords.DeleteProps(r, segs[0]);
    } else {
      var child := Get(r, segs[0]);
      if child.Obj? {
        PathUnsetHas(child.props, segs[1..]);
        JsRecords.PutProps(r, segs[0], Obj(PathUnset(child.props, segs[1..])));
      }
    }
  }
}
