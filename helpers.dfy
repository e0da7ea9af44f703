/** Small builders of rule objects. */
module Helpers {
  import opened Js
  import opened Functions
  import JsRecords

  /** `$inline(fn, error)`. */
  function Inline(fn: Value, error: Value): (r: Value)
    ensures r.Obj? && Get(r.props, "$inline") == fn
    ensures Truthy(error) ==> Keys(r.props) == ["$inline", "$error"] && Get(r.props, "$error") == error
    ensures !Truthy(error) ==> Keys(r.props) == ["$inline"]
  {
    if Truthy(error) then Obj([Prop("$inline", fn), Prop("$error", error)]) else Obj([Prop("$inline", fn)])
  }

  /** `$inlineAsync(fn, error)`. */
  function InlineAsync(fn: Value, error: Value): (r: Value)
    ensures r.Obj? && Get(r.props, "$inlineAsync") == fn
    ensures Truthy(error) ==> Keys(r.props) == ["$inlineAsync", "$error"] && Get(r.props, "$error") == error
    ensures !Truthy(error) ==> Keys(r.props) == ["$inlineAsync"]
  {
    if Truthy(error) then Obj([Prop("$inlineAsync", fn), Prop("$error", error)]) else Obj([Prop("$inlineAsync", fn)])
  }

  /** `$skip(fn)`. */
  function SkipRule(fn: Value): (r: Value)
    ensures r.Obj? && Keys(r.props) == ["$skip"] && Get(r.props, "$skip") == fn
  {
    Obj([Prop("$skip", fn)])
  }

  /** `skipIfUndefined(rule)`: a skip rule for undefined values, then the rule's entries. */
  function SkipIfUndefined(rule: Value): (r: Value)
    ensures r.Arr? && r.items == [SkipRule(Fn(IsUndefinedFn))] + RuleEntries(rule)
  {
    Arr([SkipRule(Fn(IsUndefinedFn))] + RuleEntries(rule))
  }

  /** `skipIfNotDefined(rule)`, also exported as `optional`. */
  function SkipIfNotDefined(rule: Value): (r: Value)
    ensures r.Arr? && r.items == [SkipRule(Fn(IsNotDefinedFn))] + RuleEntries(rule)
  {
    Arr([SkipRule(Fn(IsNotDefinedFn))] + RuleEntries(rule))
  }

  /**
   * Normalising `skipIfUndefined(rule)` gives `$skip` set to the undefined test,
   * unless the rule sets `$skip` itself, and every other option of the rule.
   */
  lemma SkipIfUndefinedRule(num: NumberParser, rule: Value, k: string)
    requires forall i | 0 <= i < |RuleEntries(rule)| :: Distinct(EntryProps(num, RuleEntries(rule)[i]))
    ensures !HasKey(RuleOf(num, rule), "$skip") ==> Get(RuleOf(num, SkipIfUndefined(rule)), "$skip") == Fn(IsUndefinedFn)
    ensures k != "$skip" ==> Get(RuleOf(num, SkipIfUndefined(rule)), k) == Get(RuleOf(num, rule), k)
  {
    SkipPrefix(num, SkipRule(Fn(IsUndefinedFn)), RuleEntries(rule), k);
    SkipPrefix(num, SkipRule(Fn(IsUndefinedFn)), RuleEntries(rule), "$skip");
  }

  lemma SkipPrefix(num: NumberParser, first: Value, es: seq<Value>, k: string)
    requires first.Obj? && Keys(first.props) == ["$skip"]
    requires forall i | 0 <= i < |es| :: Distinct(EntryProps(num, es[i]))
    ensures !HasKey(MergeEntries(num, es), "$skip") ==> Get(MergeEntries(num, [first] + es), "$skip") == Get(first.props, "$skip")
    ensures k != "$skip" ==> Get(MergeEntries(num, [first] + es), k) == Get(MergeEntries(num, es), k)
  {
    var all := [first] + es;
    assert forall i | 0 <= i < |es| :: all[i + 1] == es[i];
    assert Distinct(EntryProps(num, first)) by {
      assert |first.props| == 1;
    }
    MergeLastWins(num, all, k);
    MergeLastWins(num, es, k);
    MergeLastWins(num, all, "$skip");
    MergeLastWins(num, es, "$skip");
    LastValueShift(num, first, es, k);
    LastValueShift(num, first, es, "$skip");
  }

  lemma {:induction false} LastValueShift(num: NumberParser, first: Value, es: seq<Value>, k: string)
    requires first.Obj? && Keys(first.props) == ["$skip"]
    ensures k != "$skip" ==> LastValue(num, [first] + es, k) == LastValue(num, es, k)
    ensures (forall i | 0 <= i < |es| :: !HasKey(EntryProps(num, es[i]), "$skip")) ==>
      LastValue(num, [first] + es, "$skip") == Get(first.props, "$skip")
  {
    if es == [] {
      JsRecords.HasKeyInKeys(first.props, k);
      JsRecords.HasKeyInKeys(first.props, "$skip");
      assert ([first] + es)[..0] == [];
    } else {
      var init := es[..|es| - 1];
      assert ([first] + es)[..|es|] == [first] + init;
      LastValueShift(num, first, init, k);
    }
  }
}
