/**
 * The JavaScript values, plain objects and `Map`s that the SDK's helpers work on.
 *
 * A plain object is the list of its own entries in `Object.entries` order. A `Map` is an
 * insertion-ordered list of entries whose keys are distinct (`OrderedMap`).
 */
module Js {

  datatype Option<+T> = None | Some(value: T)

  /** What the modelled code throws, or lets escape from the code it calls. */
  datatype Error =
    | TypeError             // `undefined[0]`, `Object.entries(null)`, `Buffer.from(undefined)`
    | InvalidPurpose        // `ErrorCode("InvalidPurpose", ...)` thrown by `DidDoc.read`
    | Raised(code: string)  // anything a collaborator outside the model throws

  datatype Result<+T> = Ok(value: T) | Err(error: Error)

  /** A JSON-like JavaScript value; numbers are kept as integers (only their kind matters here). */
  datatype Value =
    | Undefined
    | Null
    | Bool(b: bool)
    | Num(n: int)
    | Str(s: string)
    | Arr(elems: seq<Value>)
    | Obj(fields: seq<(string, Value)>)

  predicate Nullish(v: Value) {
    v.Undefined? || v.Null?
  }

  /* ---------------------------------------------------------------------- */
  /* Entry lists                                                             */
  /* ---------------------------------------------------------------------- */

  predicate HasKey<V>(e: seq<(string, V)>, k: string) {
    exists i :: 0 <= i < |e| && e[i].0 == k
  }

  /** Entry `j` is the last entry of `e` whose key is `k`. */
  ghost predicate IsLastMatch<V>(e: seq<(string, V)>, k: string, j: int) {
    0 <= j < |e| && e[j].0 == k && forall i :: j < i < |e| ==> e[i].0 != k
  }

  /** The value of the last entry with key `k`: what a forward scan that overwrites on every match keeps. */
  function Get<V>(e: seq<(string, V)>, k: string): Option<V>
    decreases |e|
  {
    if |e| == 0 then None
    else if e[|e| - 1].0 == k then Some(e[|e| - 1].1)
    else Get(e[..|e| - 1], k)
  }

  /** `Get` finds a value exactly when the key occurs, and then it is the value of the key's last entry. */
  lemma {:induction false} GetIsLastMatch<V>(e: seq<(string, V)>, k: string)
    ensures Get(e, k).None? <==> !HasKey(e, k)
    ensures Get(e, k).Some? ==> exists j :: IsLastMatch(e, k, j) && Get(e, k).value == e[j].1
    decreases |e|
  {
    if |e| > 0 {
      var n := |e| - 1;
      if e[n].0 == k {
        assert IsLastMatch(e, k, n);
      } else {
        var p := e[..n];
        GetIsLastMatch(p, k);
        if HasKey(e, k) {
          var i :| 0 <= i < |e| && e[i].0 == k;
          assert p[i].0 == k;
        }
        if Get(p, k).Some? {
          var j :| IsLastMatch(p, k, j) && Get(p, k).value == p[j].1;
          assert IsLastMatch(e, k, j);
        }
      }
    }
  }

  /** Like `Get`, with JavaScript's `undefined` for a missing key. */
  function LastValue(e: seq<(string, Value)>, k: string): (v: Value)
    ensures !HasKey(e, k) ==> v == Undefined
    ensures HasKey(e, k) ==> exists j :: IsLastMatch(e, k, j) && v == e[j].1
  {
    GetIsLastMatch(e, k);
    match Get(e, k)
    case None => Undefined
    case Some(v) => v
  }

  /** One more entry: it replaces the looked-up value exactly when it carries the key. */
  lemma LastValueStep(e: seq<(string, Value)>, k: string, n: int)
    requires 0 <= n < |e|
    ensures LastValue(e[..n + 1], k) == if e[n].0 == k then e[n].1 else LastValue(e[..n], k)
  {
    assert e[..n + 1][..n] == e[..n];
  }

  function Keys<V>(e: seq<(string, V)>): (ks: seq<string>)
    ensures |ks| == |e| && forall i :: 0 <= i < |e| ==> ks[i] == e[i].0
  {
    seq(|e|, i requires 0 <= i < |e| => e[i].0)
  }

  predicate DistinctKeys<V>(e: seq<(string, V)>) {
    forall i, j :: 0 <= i < j < |e| ==> e[i].0 != e[j].0
  }

  /** A JavaScript `Map` with string keys: entries in insertion order, no key twice. */
  type OrderedMap<V> = m: seq<(string, V)> | DistinctKeys(m) witness []

  /** The keys of a prefix are keys of the whole list, and in a `Map` the last key is not among them. */
  lemma PrefixKeys<V>(e: seq<(string, V)>, n: int)
    requires 0 <= n <= |e|
    ensures forall k :: HasKey(e[..n], k) ==> HasKey(e, k)
    ensures DistinctKeys(e) && n < |e| ==> !HasKey(e[..n], e[n].0)
  {
    forall k | HasKey(e[..n], k) ensures HasKey(e, k) {
      var i :| 0 <= i < n && e[..n][i].0 == k;
      assert e[i].0 == k;
    }
  }

  /** The keys after appending one entry. */
  lemma AppendKeys<V>(e: seq<(string, V)>, k: string, v: V)
    ensures forall k' :: HasKey(e + [(k, v)], k') <==> HasKey(e, k') || k' == k
  {
    var a := e + [(k, v)];
    assert a[|e|].0 == k;
    forall k' | HasKey(e, k') ensures HasKey(a, k') {
      var i :| 0 <= i < |e| && e[i].0 == k';
      assert a[i].0 == k';
    }
  }

  /** In a `Map`, the key of each entry reads back that entry's value. */
  lemma GetDistinct<V>(m: seq<(string, V)>, i: int)
    requires DistinctKeys(m) && 0 <= i < |m|
    ensures Get(m, m[i].0) == Some(m[i].1)
  {
    GetIsLastMatch(m, m[i].0);
    assert HasKey(m, m[i].0);
    var j :| IsLastMatch(m, m[i].0, j) && Get(m, m[i].0).value == m[j].1;
    assert !(j < i);
    assert !(i < j);
  }

  /** `Map.prototype.set`: a present key keeps its place and gets the new value; a new key goes last. */
  function Set<V>(m: OrderedMap<V>, k: string, v: V): (r: OrderedMap<V>)
    ensures Keys(r) == if HasKey(m, k) then Keys(m) else Keys(m) + [k]
  {
    if HasKey(m, k) then
      seq(|m|, i requires 0 <= i < |m| => if m[i].0 == k then (k, v) else m[i])
    else
      m + [(k, v)]
  }

  /** Two entry lists with the same keys, which agree on the entries keyed `k`, agree on `Get(_, k)`. */
  lemma {:induction false} GetAgrees<V>(a: seq<(string, V)>, b: seq<(string, V)>, k: string)
    requires |a| == |b|
    requires forall i :: 0 <= i < |a| ==> a[i].0 == b[i].0
    requires forall i :: 0 <= i < |a| && a[i].0 == k ==> a[i].1 == b[i].1
    ensures Get(a, k) == Get(b, k)
    decreases |a|
  {
    if |a| > 0 && a[|a| - 1].0 != k {
      GetAgrees(a[..|a| - 1], b[..|b| - 1], k);
    }
  }

  /** After `m.set(k, v)`, `get(k)` is `v` and every other key reads as before. */
  lemma SetGet<V>(m: OrderedMap<V>, k: string, v: V, k': string)
    ensures Get(Set(m, k, v), k') == if k' == k then Some(v) else Get(m, k')
  {
    var r := Set(m, k, v);
    if HasKey(m, k) {
      if k' == k {
        var i :| 0 <= i < |m| && m[i].0 == k;
        GetDistinct(r, i);
      } else {
        GetAgrees(r, m, k');
      }
    } else {
      assert r[..|r| - 1] == m;
    }
  }

  /** Setting the last key of a `Map` again replaces only its value. */
  lemma SetLast<V>(m: OrderedMap<V>, k: string, v: V, w: V)
    requires !HasKey(m, k)
    ensures DistinctKeys(m + [(k, v)])
    ensures Set(m + [(k, v)], k, w) == m + [(k, w)]
  {
    var mv := m + [(k, v)];
    assert mv[|m|].0 == k;
    assert HasKey(mv, k);
  }

  /* ---------------------------------------------------------------------- */
  /* Property access and Object.entries                                      */
  /* ---------------------------------------------------------------------- */

  /** The decimal spelling of an array index, as it appears as a property key. */
  function DecimalString(n: nat): (s: string)
    ensures |s| > 0 && forall i :: 0 <= i < |s| ==> '0' <= s[i] <= '9'
  {
    if n < 10 then [(48 + n) as char]
    else DecimalString(n / 10) + [(48 + n % 10) as char]
  }

  /** `v[i]`: throws on `undefined` and `null`, reads `undefined` past the end or on a primitive. */
  function Index(v: Value, i: nat): (r: Result<Value>)
    ensures r.Err? <==> Nullish(v)
    ensures r.Err? ==> r.error == TypeError
    ensures v.Arr? ==> r == Ok(if i < |v.elems| then v.elems[i] else Undefined)
  {
    match v
    case Undefined => Err(TypeError)
    case Null => Err(TypeError)
    case Bool(_) => Ok(Undefined)
    case Num(_) => Ok(Undefined)
    case Str(s) => Ok(if i < |s| then Str([s[i]]) else Undefined)
    case Arr(xs) => Ok(if i < |xs| then xs[i] else Undefined)
    case Obj(f) => Ok(LastValue(f, DecimalString(i)))
  }

  /** `Object.entries(v)`: strings and arrays list their indices, other primitives nothing. */
  function EntriesOf(v: Value): (r: Result<seq<(string, Value)>>)
    ensures r.Err? <==> Nullish(v)
    ensures r.Err? ==> r.error == TypeError
    ensures v.Obj? ==> r == Ok(v.fields)
  {
    match v
    case Undefined => Err(TypeError)
    case Null => Err(TypeError)
    case Bool(_) => Ok([])
    case Num(_) => Ok([])
    case Str(s) => Ok(seq(|s|, i requires 0 <= i < |s| => (DecimalString(i), Str([s[i]]))))
    case Arr(xs) => Ok(seq(|xs|, i requires 0 <= i < |xs| => (DecimalString(i), xs[i])))
    case Obj(f) => Ok(f)
  }

  /** A key that is not all digits is never among the entries of a string or an array. */
  lemma {:induction false} IndexEntriesLackName(v: Value, k: string, c: int)
    requires v.Str? || v.Arr?
    requires 0 <= c < |k| && !('0' <= k[c] <= '9')
    ensures !HasKey(EntriesOf(v).value, k)
  {
  }

  /* ---------------------------------------------------------------------- */
  /* Order                                                                   */
  /* ---------------------------------------------------------------------- */

  /** `a` is `b` with some elements left out, the rest in the same order. */
  ghost predicate IsSubsequence<T>(a: seq<T>, b: seq<T>)
    decreases |b|
  {
    if |a| == 0 then true
    else if |b| == 0 then false
    else if a[|a| - 1] == b[|b| - 1] then IsSubsequence(a[..|a| - 1], b[..|b| - 1])
    else IsSubsequence(a, b[..|b| - 1])
  }

  lemma {:induction false} SubsequenceDropLast<T>(a: seq<T>, b: seq<T>)
    requires |a| > 0 && IsSubsequence(a, b)
    ensures IsSubsequence(a[..|a| - 1], b)
    decreases |b|
  {
    var a' := a[..|a| - 1];
    if |a'| > 0 {
      var b' := b[..|b| - 1];
      if a[|a| - 1] == b[|b| - 1] {
        if a'[|a'| - 1] == b[|b| - 1] {
          SubsequenceDropLast(a', b');
        }
      } else {
        SubsequenceDropLast(a, b');
        if a'[|a'| - 1] == b[|b| - 1] {
          SubsequenceDropLast(a', b');
        }
      }
    }
  }

  lemma SubsequenceExtend<T>(a: seq<T>, b: seq<T>, x: T)
    requires IsSubsequence(a, b)
    ensures IsSubsequence(a, b + [x])
  {
    assert (b + [x])[..|b|] == b;
    if |a| > 0 && a[|a| - 1] == x {
      SubsequenceDropLast(a, b);
    }
  }

  lemma SubsequenceAppend<T>(a: seq<T>, b: seq<T>, x: T)
    requires IsSubsequence(a, b)
    ensures IsSubsequence(a + [x], b + [x])
  {
    assert (a + [x])[..|a|] == a;
    assert (b + [x])[..|b|] == b;
  }
}
