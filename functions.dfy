/** Normalising rule arrays and schemas into flat rule records. */
module Functions {
  import opened Js
  import opened RuleStrings
  import JsRecords

  /** A non-array rule is treated as a one-element array. */
  function RuleEntries(rules: Value): seq<Value>
  {
    if rules.Arr? then rules.items else [rules]
  }

  /** What one array entry contributes: a string is parsed, anything else is spread. */
  function EntryProps(num: NumberParser, e: Value): Record
  {
    if e.Str? then ParseRuleString(num, e.s) else OwnProps(e)
  }

  /** Entries merged left to right, each spread over the merge of those before it. */
  function MergeEntries(num: NumberParser, es: seq<Value>): Record
  {
    if es == [] then [] else Assign(MergeEntries(num, es[..|es| - 1]), EntryProps(num, es[|es| - 1]))
  }

  function RuleOf(num: NumberParser, rules: Value): Record
  {
    MergeEntries(num, RuleEntries(rules))
  }

  /** `Rule(rules)`: one flat rule record from a string, an object or an array of them. */
  method Rule(num: NumberParser, rules: Value) returns (generated: Record)
    ensures generated == RuleOf(num, rules)
  {
    var entries := if rules.Arr? then rules.items else [rules];
    generated := [];
    for i := 0 to |entries|
      invariant generated == MergeEntries(num, entries[..i])
    {
      assert entries[..i + 1][..i] == entries[..i];
      var rule := entries[i];
      var part;
      if rule.Str? {
        part := StringToRules(num, rule.s);
      } else {
        part := OwnProps(rule);
      }
      generated := Assign(generated, part);
    }
    assert entries[..|entries|] == entries;
  }

  /** The typed variant is the same call. */
  method RuleTyped(num: NumberParser, rule: Value) returns (generated: Record)
    ensures generated == RuleOf(num, rule)
  {
    generated := Rule(num, rule);
  }

  /** The value `Schema` stores under one key. */
  function SchemaValue(num: NumberParser, key: string, rule: Value): Value
  {
    if key == "$include" then rule
    else if rule.Str? then Obj(ParseRuleString(num, rule.s))
    else if rule.Arr? then Obj(RuleOf(num, rule))
    else rule
  }

  function SchemaFrom(num: NumberParser, rules: Record, keys: seq<string>): Record
  {
    if keys == [] then []
    else
      var k := keys[|keys| - 1];
      Put(SchemaFrom(num, rules, keys[..|keys| - 1]), k, SchemaValue(num, k, Get(rules, k)))
  }

  function SchemaOf(num: NumberParser, rules: Record): Record
  {
    SchemaFrom(num, rules, Keys(rules))
  }

  /** `Schema(rules)`: every field's rule normalised, `$include` passed through. */
  method Schema(num: NumberParser, rules: Record) returns (generated: Record)
    ensures generated == SchemaOf(num, rules)
  {
    var keys := Keys(rules);
    generated := [];
    for i := 0 to |keys|
      invariant generated == SchemaFrom(num, rules, keys[..i])
    {
      assert keys[..i + 1][..i] == keys[..i];
      var key := keys[i];
      var rule := Get(rules, key);
      if key == "$include" {
        generated := Put(generated, key, rule);
      } else {
        if rule.Str? {
          var parsed := StringToRules(num, rule.s);
          rule := Obj(parsed);
        } else if rule.Arr? {
          var merged := Rule(num, rule);
          rule := Obj(merged);
        }
        generated := Put(generated, key, rule);
      }
    }
    assert keys[..|keys|] == keys;
  }

  method SchemaTyped(num: NumberParser, rules: Record) returns (generated: Record)
    ensures generated == SchemaOf(num, rules)
  {
    generated := Schema(num, rules);
  }

  // Properties

  /** Later entries override earlier ones: a key takes its value from the last entry that has it. */
  lemma {:induction false} MergeLastWins(num: NumberParser, es: seq<Value>, k: string)
    requires forall i | 0 <= i < |es| :: Distinct(EntryProps(num, es[i]))
    ensures Get(MergeEntries(num, es), k) == LastValue(num, es, k)
    ensures HasKey(MergeEntries(num, es), k) <==> exists i | 0 <= i < |es| :: HasKey(EntryProps(num, es[i]), k)
  {
    if es != [] {
      var init := es[..|es| - 1];
      var last := EntryProps(num, es[|es| - 1]);
      assert forall i | 0 <= i < |init| :: init[i] == es[i];
      MergeLastWins(num, init, k);
      JsRecords.AssignGet(MergeEntries(num, init), last, k);
    }
  }

  /** The value of `k` in the last entry that has it, undefined if none does. */
  function LastValue(num: NumberParser, es: seq<Value>, k: string): Value
  {
    if es == [] then Undef
    else if HasKey(EntryProps(num, es[|es| - 1]), k) then Get(EntryProps(num, es[|es| - 1]), k)
    else LastValue(num, es[..|es| - 1], k)
  }

  /** Schema keeps exactly the keys it was given, in order. */
  lemma {:induction false} SchemaFromKeys(num: NumberParser, rules: Record, keys: seq<string>)
    requires forall i, j | 0 <= i < j < |keys| :: keys[i] != keys[j]
    ensures Keys(SchemaFrom(num, rules, keys)) == keys
  {
    if keys != [] {
      var init := keys[..|keys| - 1];
      var k := keys[|keys| - 1];
      SchemaFromKeys(num, rules, init);
      JsRecords.HasKeyInKeys(SchemaFrom(num, rules, init), k);
      JsRecords.PutProps(SchemaFrom(num, rules, init), k, SchemaValue(num, k, Get(rules, k)));
    }
  }

  /** Each key of the schema holds its normalised rule; `$include` is copied as is. */
  lemma {:induction false} SchemaFromGet(num: NumberParser, rules: Record, keys: seq<string>, k: string)
    requires k in keys
    ensures Get(SchemaFrom(num, rules, keys), k) == SchemaValue(num, k, Get(rules, k))
  {
    var init := keys[..|keys| - 1];
    var last := keys[|keys| - 1];
    JsRecords.PutProps(SchemaFrom(num, rules, init), last, SchemaValue(num, last, Get(rules, last)));
    if last != k {
      assert k in init by {
        var i :| 0 <= i < |keys| && keys[i] == k;
        assert init[i] == k;
      }
      SchemaFromGet(num, rules, init, k);
    }
  }

  lemma SchemaKeepsKeys(num: NumberParser, rules: Record)
    requires Distinct(rules)
    ensures Keys(SchemaOf(num, rules)) == Keys(rules)
    ensures forall k | HasKey(rules, k) :: Get(SchemaOf(num, rules), k) == SchemaValue(num, k, Get(rules, k))
    ensures Get(SchemaOf(num, rules), "$include") == Get(rules, "$include")
  {
    var ks := Keys(rules);
    forall i | 0 <= i < |ks| ensures ks[i] == rules[i].key { JsRecords.KeysIndex(rules, i); }
    SchemaFromKeys(num, rules, ks);
    forall k | HasKey(rules, k)
      ensures Get(SchemaOf(num, rules), k) == SchemaValue(num, k, Get(rules, k))
    {
      JsRecords.HasKeyInKeys(rules, k);
      SchemaFromGet(num, rules, ks, k);
    }
    JsRecords.HasKeyInKeys(rules, "$include");
    if HasKey(rules, "$include") {
      SchemaFromGet(num, rules, ks, "$include");
    } else {
      JsRecords.HasKeyInKeys(SchemaOf(num, rules), "$include");
      JsRecords.GetAbsent(SchemaOf(num, rules), "$include");
      JsRecords.GetAbsent(rules, "$include");
    }
  }

  /** A single bare key, with neither `|` nor `:` in it, parses to `{key: true}`. */
  lemma SingleBareKey(num: NumberParser, key: string)
    requires key != [] && key[0] != '!'
    requires forall j | 0 <= j < |key| :: IsKeyChar(key[j])
    ensures ParseRuleString(num, key) == [Prop(key, Bool(true))]
    ensures ParseRuleString(num, "!" + key) == [Prop(key, Bool(false))]
  {
    BareSplit(key);
    BareToken(num, key);
    assert Classify(num, key) == Some(Prop(key, Bool(true)));
    assert ParseTokens(num, [key]) == Store(num, ParseTokens(num, []), key);
    var neg := "!" + key;
    assert forall j | 1 <= j < |neg| :: neg[j] == key[j - 1];
    BareSplit(neg);
    BareToken(num, neg);
    assert neg[1..] == key;
    assert Classify(num, neg) == Some(Prop(key, Bool(false)));
    assert ParseTokens(num, [neg]) == Store(num, ParseTokens(num, []), neg);
  }

  lemma BareSplit(t: string)
    requires forall j | 0 <= j < |t| :: t[j] != '|'
    ensures JsStr.Split(t, '|') == [t]
  {
    JsStr.SplitNone(t, '|', 0, 0);
    assert t[0..] == t;
  }

  /** The documented example: `Rule(['required', {min: 10, max: 20}, '!exact'])`. */
  lemma RuleExample(num: NumberParser)
    ensures RuleOf(num, Arr([Str("required"), Obj([Prop("min", Num(10)), Prop("max", Num(20))]), Str("!exact")]))
      == [Prop("required", Bool(true)), Prop("min", Num(10)), Prop("max", Num(20)), Prop("exact", Bool(false))]
  {
    var first := [Prop("required", Bool(true)), Prop("min", Num(10)), Prop("max", Num(20))];
    var es := [Str("required"), Obj([Prop("min", Num(10)), Prop("max", Num(20))]), Str("!exact")];
    assert es[..2] == [Str("required"), Obj([Prop("min", Num(10)), Prop("max", Num(20))])];
    assert MergeEntries(num, es) == Assign(MergeEntries(num, es[..2]), EntryProps(num, Str("!exact")));
    ExampleFirstTwo(num);
    ExampleLast(num);
    assert Assign(first, [Prop("exact", Bool(false))]) == first + [Prop("exact", Bool(false))];
  }

  lemma ExampleLast(num: NumberParser)
    ensures EntryProps(num, Str("!exact")) == [Prop("exact", Bool(false))]
  {
    SingleBareKey(num, "exact");
    assert "!" + "exact" == "!exact";
  }

  lemma ExampleFirstTwo(num: NumberParser)
    ensures MergeEntries(num, [Str("required"), Obj([Prop("min", Num(10)), Prop("max", Num(20))])])
      == [Prop("required", Bool(true)), Prop("min", Num(10)), Prop("max", Num(20))]
  {
    var req := Prop("required", Bool(true));
    var bounds := [Prop("min", Num(10)), Prop("max", Num(20))];
    var es := [Str("required"), Obj(bounds)];
    ExampleFirst(num);
    assert es[..1] == [Str("required")];
    assert MergeEntries(num, es) == Assign([req], bounds);
    assert Put([req], "min", Num(10)) == [req, bounds[0]];
    assert "min" != "max" by { assert "min"[1] != "max"[1]; }
    assert "required" != "max";
    assert Put([req, bounds[0]], "max", Num(20)) == [req] + [Put([bounds[0]], "max", Num(20))[0]] + Put([], "max", Num(20));
  }

  lemma ExampleFirst(num: NumberParser)
    ensures MergeEntries(num, [Str("required")]) == [Prop("required", Bool(true))]
  {
    assert [Str("required")][..0] == [];
    assert MergeEntries(num, [Str("required")]) == Assign([], EntryProps(num, Str("required")));
    assert EntryProps(num, Str("required")) == [Prop("required", Bool(true))] by {
      SingleBareKey(num, "required");
    }
  }
}
