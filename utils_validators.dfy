/** The `same` validator: compares the value with another field of the record. */
module UtilsValidators {
  import opened Js
  import opened Results
  import opened Inbuilt
  import opened Modifier

  const SameError := ":param must be the same as :option"

  /** `same`: passes iff the value equals what `modifier.get(option)` finds in the record. */
  function Same(value: Value, option: Value, record: Record): (r: Verdict)
    ensures r.Pass? || r.Fail?
    ensures r.Pass? <==> value == LodashGet(record, option)
  {
    FromBool(value == LodashGet(record, option))
  }

  /** For a key without dots the option names a top-level field. */
  lemma SameFlat(value: Value, key: string, record: Record)
    requires !HasDotNotation(key)
    ensures Same(value, Str(key), record).Pass? <==> value == Get(record, key)
  {
    LiteralKeyFirst(record, key);
  }

  /** A dotted option that already is a key of the record compares with that key, not with a nested field. */
  lemma SameLiteralKey(value: Value, key: string, record: Record)
    requires HasKey(record, key)
    ensures Same(value, Str(key), record).Pass? <==> value == Get(record, key)
  {
    LiteralKeyFirst(record, key);
  }

  /** An array option is a path of segments; an empty one compares with undefined. */
  lemma SameArrayPath(value: Value, segs: seq<string>, record: Record)
    ensures var option := Arr(seq(|segs|, i requires 0 <= i < |segs| => Str(segs[i])));
      Same(value, option, record).Pass? <==> value == (if segs == [] then Undef else PathGet(Obj(record), segs))
  {
    ArrayPathWalked(record, segs);
  }

  /** `same` asks exactly what the modifier's `get` answers, with undefined as the default. */
  lemma SameUsesModifier(value: Value, option: Value, modifier: ObjectModifier)
    ensures Same(value, option, modifier.data.props).Pass? <==> value == modifier.Get(option, Undef)
  {
  }

  /** Two fields holding the same value pass `same` in either direction. */
  lemma SameSymmetric(record: Record, a: string, b: string)
    requires !HasDotNotation(a) && !HasDotNotation(b)
    requires Get(record, a) == Get(record, b)
    ensures Same(Get(record, a), Str(b), record).Pass?
    ensures Same(Get(record, b), Str(a), record).Pass?
  {
    SameFlat(Get(record, a), b, record);
    SameFlat(Get(record, b), a, record);
  }
}
