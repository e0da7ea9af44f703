/** Properties of the object operations of module Js. */
module JsRecords {
  import opened Js

  lemma {:induction false} HasKeyInKeys(r: Record, k: string)
    ensures HasKey(r, k) <==> k in Keys(r)
  {
    if r != [] {
      HasKeyInKeys(r[1..], k);
    }
  }

  lemma {:induction false} GetAbsent(r: Record, k: string)
    requires !HasKey(r, k)
    ensures Get(r, k) == Undef
  {
    if r != [] {
      GetAbsent(r[1..], k);
    }
  }

  /** Assignment stores the value, keeps every other key's value, and adds `k` at the end only when new. */
  lemma {:induction false} PutProps(r: Record, k: string, v: Value)
    ensures Get(Put(r, k, v), k) == v
    ensures forall k' | k' != k :: Get(Put(r, k, v), k') == Get(r, k')
    ensures forall k' :: HasKey(Put(r, k, v), k') <==> k' == k || HasKey(r, k')
    ensures HasKey(r, k) ==> Keys(Put(r, k, v)) == Keys(r)
    ensures !HasKey(r, k) ==> Keys(Put(r, k, v)) == Keys(r) + [k]
  {
    if r != [] && r[0].key != k {
      PutProps(r[1..], k, v);
    }
  }

  lemma {:induction false} PutDistinct(r: Record, k: string, v: Value)
    requires Distinct(r)
    ensures Distinct(Put(r, k, v))
  {
    if r != [] && r[0].key != k {
      var t := Put(r[1..], k, v);
      assert Distinct(r[1..]);
      PutDistinct(r[1..], k, v);
      PutProps(r[1..], k, v);
      HasKeyIndex(r[1..], r[0].key);
      HasKeyIndex(t, r[0].key);
      assert Put(r, k, v) == [r[0]] + t;
    } else if r != [] {
      assert forall i | 0 <= i < |r| :: Put(r, k, v)[i].key == r[i].key;
    }
  }

  lemma {:induction false} HasKeyIndex(r: Record, k: string)
    ensures HasKey(r, k) <==> exists i | 0 <= i < |r| :: r[i].key == k
  {
    if r != [] {
      HasKeyIndex(r[1..], k);
      assert forall i | 0 <= i < |r[1..]| :: r[1..][i] == r[i + 1];
      if exists i | 0 <= i < |r| :: r[i].key == k {
        var i :| 0 <= i < |r| && r[i].key == k;
        if i > 0 {
          assert r[1..][i - 1].key == k;
        }
      }
    }
  }

  lemma {:induction false} KeysIndex(r: Record, i: nat)
    requires i < |r|
    ensures Keys(r)[i] == r[i].key
  {
    if i > 0 {
      KeysIndex(r[1..], i - 1);
    }
  }

  lemma {:induction false} DeleteProps(r: Record, k: string)
    ensures !HasKey(Delete(r, k), k)
    ensures forall k' | k' != k :: Get(Delete(r, k), k') == Get(r, k')
    ensures forall k' | k' != k :: HasKey(Delete(r, k), k') == HasKey(r, k')
  {
    if r != [] {
      DeleteProps(r[1..], k);
    }
  }

  /** Spread: a key of `b` takes `b`'s value, any other key keeps `a`'s. */
  lemma {:induction false} AssignGet(a: Record, b: Record, k: string)
    requires Distinct(b)
    ensures Get(Assign(a, b), k) == if HasKey(b, k) then Get(b, k) else Get(a, k)
    ensures HasKey(Assign(a, b), k) <==> HasKey(a, k) || HasKey(b, k)
    decreases |b|
  {
    if b != [] {
      assert Distinct(b[1..]) by {
        forall i, j | 0 <= i < j < |b[1..]| ensures b[1..][i].key != b[1..][j].key {
          assert b[1..][i] == b[i + 1] && b[1..][j] == b[j + 1];
        }
      }
      assert forall i | 0 <= i < |b[1..]| :: b[1..][i] == b[i + 1];
      AssignGet(Put(a, b[0].key, b[0].val), b[1..], k);
      PutProps(a, b[0].key, b[0].val);
      HasKeyIndex(b[1..], b[0].key);
    }
  }

  /** A second write to the same key replaces the first. */
  lemma {:induction false} PutTwice(r: Record, k: string, a: Value, b: Value)
    ensures Put(Put(r, k, a), k, b) == Put(r, k, b)
  {
    if r != [] && r[0].key != k {
      PutTwice(r[1..], k, a, b);
    }
  }
}
