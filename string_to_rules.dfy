/**
 * The rule-string parser: `"required|typeof:string|min:3"` becomes the
 * record `{required: true, typeof: "string", min: 3}`.
 */
module RuleStrings {
  import opened Js
  import opened JsStr
  import JsRecords

  // Character classes of the three token patterns.

  /** `[a-zA-Z_*0-9]`: a character of a key. */
  predicate IsKeyChar(c: char)
  {
    'a' <= c <= 'z' || 'A' <= c <= 'Z' || c == '_' || c == '*' || '0' <= c <= '9'
  }

  /** `[a-zA-Z_0-9]`: a character of an unquoted value. */
  predicate IsValueChar(c: char)
  {
    'a' <= c <= 'z' || 'A' <= c <= 'Z' || c == '_' || '0' <= c <= '9'
  }

  predicate HasCharFrom(s: string, c: char, k: nat)
    decreases |s| - k
  {
    k < |s| && (s[k] == c || HasCharFrom(s, c, k + 1))
  }

  /** `key:"text"` (with quote `q`) matches with its colon at position `i`. */
  predicate QuotedAt(s: string, q: char, i: nat)
  {
    1 <= i && i + 3 < |s| && s[i] == ':' && IsKeyChar(s[i - 1]) && s[i + 1] == q
    && s[i + 2] != q && HasCharFrom(s, q, i + 3)
  }

  /** The unanchored pattern `[a-zA-Z_*0-9]+:q[^q]+q` matches somewhere at or after `i`. */
  predicate QuotedFrom(s: string, q: char, i: nat)
    decreases |s| - i
  {
    i < |s| && (QuotedAt(s, q, i) || QuotedFrom(s, q, i + 1))
  }

  /** `[a-zA-Z_*0-9]+:[a-zA-Z_0-9]+` matches with its colon at position `i`. */
  predicate KeyValueAt(s: string, i: nat)
  {
    1 <= i && i + 1 < |s| && s[i] == ':' && IsKeyChar(s[i - 1]) && IsValueChar(s[i + 1])
  }

  predicate KeyValueFrom(s: string, i: nat)
    decreases |s| - i
  {
    i < |s| && (KeyValueAt(s, i) || KeyValueFrom(s, i + 1))
  }

  /** `[!a-zA-Z_*0-9]+` matches somewhere at or after `i`. */
  predicate OnlyKeyFrom(s: string, i: nat)
    decreases |s| - i
  {
    i < |s| && (IsKeyChar(s[i]) || s[i] == '!' || OnlyKeyFrom(s, i + 1))
  }

  predicate IsQuoted(t: string)
  {
    QuotedFrom(t, '\'', 0) || QuotedFrom(t, '"', 0) || QuotedFrom(t, '`', 0)
  }

  /** The value of a `key:value` token: a number unless `isNaN` holds. */
  function NumberOrString(num: NumberParser, raw: string): Value
  {
    match StrToNumber(num, raw)
    case Some(n) => Num(n)
    case None => Str(raw)
  }

  /** The property one token contributes, or None when it matches no pattern. */
  function Classify(num: NumberParser, t: string): Option<Prop>
  {
    if IsQuoted(t) then
      var parts := Split(t, ':');
      var rest := parts[1..];
      Some(Prop(parts[0], Str(Take(Drop1(JoinWith(rest, ":")), |rest| - 1))))
    else if KeyValueFrom(t, 0) then
      var parts := Split(t, ':');
      Some(Prop(parts[0], if |parts| > 1 then NumberOrString(num, parts[1]) else Undef))
    else if OnlyKeyFrom(t, 0) then
      if t[0] == '!' then Some(Prop(t[1..], Bool(false))) else Some(Prop(t, Bool(true)))
    else
      None
  }

  /** Writes one token's property into the record under construction. */
  function Store(num: NumberParser, r: Record, t: string): Record
  {
    match Classify(num, t)
    case Some(p) => Put(r, p.key, p.val)
    case None => r
  }

  /** The record built from a list of tokens, left to right. */
  function ParseTokens(num: NumberParser, toks: seq<string>): Record
  {
    if toks == [] then [] else Store(num, ParseTokens(num, toks[..|toks| - 1]), toks[|toks| - 1])
  }

  function ParseRuleString(num: NumberParser, str: string): Record
  {
    ParseTokens(num, Split(str, '|'))
  }

  /** The parser itself: one pass over the `|`-separated tokens. */
  method StringToRules(num: NumberParser, str: string) returns (r: Record)
    ensures r == ParseRuleString(num, str)
  {
    var s := Split(str, '|');
    r := [];
    for i := 0 to |s|
      invariant r == ParseTokens(num, s[..i])
    {
      assert s[..i + 1][..i] == s[..i];
      match Classify(num, s[i])
      case Some(p) =>
        r := Put(r, p.key, p.val);
      case None =>
    }
    assert s[..|s|] == s;
  }

  // Properties of the parser

  /** The result is a proper object: no key appears twice. */
  lemma {:induction false} ParseTokensDistinct(num: NumberParser, toks: seq<string>)
    ensures Distinct(ParseTokens(num, toks))
  {
    if toks != [] {
      ParseTokensDistinct(num, toks[..|toks| - 1]);
      var t := toks[|toks| - 1];
      if Classify(num, t).Some? {
        var p := Classify(num, t).value;
        JsRecords.PutDistinct(ParseTokens(num, toks[..|toks| - 1]), p.key, p.val);
      }
    }
  }

  /** An empty token, such as the one after a trailing `|`, matches no pattern. */
  lemma EmptyTokenDropped(num: NumberParser)
    ensures Classify(num, "") == None
  {
  }

  /** A trailing `|` changes nothing. */
  lemma TrailingSeparator(num: NumberParser, str: string)
    ensures ParseRuleString(num, str + "|") == ParseRuleString(num, str)
  {
    SplitTrailing(str, '|', 0, 0);
    var toks := Split(str, '|');
    assert (toks + [""])[..|toks|] == toks;
  }

  /** Exactly the keys of the tokens that match a pattern appear in the result. */
  lemma {:induction false} ParseTokensKeys(num: NumberParser, toks: seq<string>, k: string)
    ensures HasKey(ParseTokens(num, toks), k) <==>
      exists i | 0 <= i < |toks| :: Classify(num, toks[i]).Some? && Classify(num, toks[i]).value.key == k
  {
    if toks != [] {
      var init := toks[..|toks| - 1];
      ParseTokensKeys(num, init, k);
      var t := toks[|toks| - 1];
      if Classify(num, t).Some? {
        var p := Classify(num, t).value;
        JsRecords.PutProps(ParseTokens(num, init), p.key, p.val);
      }
      assert forall i | 0 <= i < |init| :: init[i] == toks[i];
    }
  }

  /** A repeated key takes the value of its last token. */
  lemma {:induction false} LastTokenWins(num: NumberParser, toks: seq<string>, i: nat, k: string, v: Value)
    requires i < |toks| && Classify(num, toks[i]) == Some(Prop(k, v))
    requires forall j | i < j < |toks| :: Classify(num, toks[j]).None? || Classify(num, toks[j]).value.key != k
    ensures Get(ParseTokens(num, toks), k) == v
  {
    var init := toks[..|toks| - 1];
    var t := toks[|toks| - 1];
    if i < |toks| - 1 {
      LastTokenWins(num, init, i, k, v);
      if Classify(num, t).Some? {
        var p := Classify(num, t).value;
        JsRecords.PutProps(ParseTokens(num, init), p.key, p.val);
      }
    } else {
      JsRecords.PutProps(ParseTokens(num, init), k, v);
    }
  }

  // Classification of individual tokens

  lemma {:induction false} QuotedFromWitness(s: string, q: char, i: nat, j: nat)
    requires i <= j && QuotedAt(s, q, j)
    ensures QuotedFrom(s, q, i)
    decreases j - i
  {
    if i < j {
      QuotedFromWitness(s, q, i + 1, j);
    }
  }

  lemma {:induction false} NoQuotedFrom(s: string, q: char, i: nat)
    requires forall j | i <= j < |s| :: !QuotedAt(s, q, j)
    ensures !QuotedFrom(s, q, i)
    decreases |s| - i
  {
    if i < |s| {
      NoQuotedFrom(s, q, i + 1);
    }
  }

  lemma {:induction false} KeyValueFromWitness(s: string, i: nat, j: nat)
    requires i <= j && KeyValueAt(s, j)
    ensures KeyValueFrom(s, i)
    decreases j - i
  {
    if i < j {
      KeyValueFromWitness(s, i + 1, j);
    }
  }

  lemma {:induction false} NoKeyValueFrom(s: string, i: nat)
    requires forall j | i <= j < |s| :: !KeyValueAt(s, j)
    ensures !KeyValueFrom(s, i)
    decreases |s| - i
  {
    if i < |s| {
      NoKeyValueFrom(s, i + 1);
    }
  }

  predicate IsQuote(c: char)
  {
    c == '\'' || c == '"' || c == '`'
  }

  /** A token without `:` is a bare key: `!k` gives `k: false`, anything else the whole token with `true`. */
  lemma BareToken(num: NumberParser, t: string)
    requires forall j | 0 <= j < |t| :: t[j] != ':'
    requires OnlyKeyFrom(t, 0)
    ensures t != []
    ensures Classify(num, t) == if t[0] == '!' then Some(Prop(t[1..], Bool(false))) else Some(Prop(t, Bool(true)))
  {
    NoQuotedFrom(t, '\'', 0);
    NoQuotedFrom(t, '"', 0);
    NoQuotedFrom(t, '`', 0);
    NoKeyValueFrom(t, 0);
  }

  /** `key:value` gives the key with the value converted to a number when it is numeric. */
  lemma KeyValueToken(num: NumberParser, k: string, v: string)
    requires k != [] && forall j | 0 <= j < |k| :: IsKeyChar(k[j])
    requires v != [] && forall j | 0 <= j < |v| :: IsValueChar(v[j])
    ensures Classify(num, k + ":" + v) == Some(Prop(k, NumberOrString(num, v)))
  {
    var t := k + ":" + v;
    assert forall j | 0 <= j < |t| && j != |k| :: t[j] != ':' by {
      forall j | 0 <= j < |t| && j != |k| ensures t[j] != ':' {
        if j < |k| { assert t[j] == k[j]; } else { assert t[j] == v[j - |k| - 1]; }
      }
    }
    assert t[|k| + 1] == v[0];
    NoQuotedFrom(t, '\'', 0);
    NoQuotedFrom(t, '"', 0);
    NoQuotedFrom(t, '`', 0);
    assert t[|k| - 1] == k[|k| - 1];
    KeyValueFromWitness(t, 0, |k|);
    SplitPair(k, v, ':');
  }

  /** A quoted value without inner colons is cut down to the empty string: `k:"abc"` gives `k: ""`. */
  lemma QuotedTokenTruncated(num: NumberParser, k: string, q: char, body: string)
    requires k != [] && forall j | 0 <= j < |k| :: IsKeyChar(k[j])
    requires IsQuote(q)
    requires body != [] && forall j | 0 <= j < |body| :: body[j] != q && body[j] != ':'
    ensures Classify(num, k + ":" + [q] + body + [q]) == Some(Prop(k, Str("")))
  {
    var rest := [q] + body + [q];
    var t := k + ":" + rest;
    assert t == k + [':'] + rest;
    assert k + ":" + [q] + body + [q] == t;
    assert t[|k|] == ':' && t[|k| - 1] == k[|k| - 1] && t[|k| + 1] == q && t[|k| + 2] == body[0];
    assert t[|t| - 1] == q;
    HasCharAt(t, q, |k| + 3, |t| - 1);
    assert QuotedAt(t, q, |k|);
    QuotedFromWitness(t, q, 0, |k|);
    assert forall j | 0 <= j < |rest| :: rest[j] != ':' by {
      forall j | 0 <= j < |rest| ensures rest[j] != ':' {
        if 0 < j < |rest| - 1 { assert rest[j] == body[j - 1]; }
      }
    }
    SplitPair(k, rest, ':');
    assert IsQuoted(t);
  }

  lemma {:induction false} HasCharAt(s: string, c: char, k: nat, j: nat)
    requires k <= j < |s| && s[j] == c
    ensures HasCharFrom(s, c, k)
    decreases j - k
  {
    if k < j {
      HasCharAt(s, c, k + 1, j);
    }
  }
}
