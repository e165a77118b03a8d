/** Parsed JSON values, the records the pipeline produces, and the two ways
    the parsers turn a nested JSON value into a field of a record. A record
    is a JavaScript object: a list of distinct keys in the order
    `Object.keys` gives them, index keys ("0", "8", "10") first in ascending
    numeric order and the other keys in the order they were created.
    Writing an existing key keeps its position; assigning `__proto__` to an
    object without an own key of that name creates no key. */
module Records {
  import opened Wrappers
  import Strings

  /** The output of `JSON.parse`. A number carries the text `String(n)`
      prints for it; an object carries its members as written, duplicates
      included. */
  datatype Json =
    | JNull
    | JBool(b: bool)
    | JNum(text: string)
    | JStr(s: string)
    | JArr(elems: seq<Json>)
    | JObj(members: seq<(string, Json)>)

  /** A field of a record. `VJson` holds a nested object or array copied
      unchanged; `VUndefined` is a present key whose value is `undefined`. */
  datatype Value =
    | VStr(s: string)
    | VNum(text: string)
    | VBool(b: bool)
    | VNull
    | VUndefined
    | VJson(j: Json)

  /** A value a spreadsheet cell can show directly. */
  predicate Flat(v: Value)
  {
    !v.VJson?
  }

  type Entries<V> = seq<(string, V)>
  type Record = Entries<Value>

  predicate AllFlat(r: Record)
  {
    forall i :: 0 <= i < |r| ==> Flat(r[i].1)
  }

  // ---------------------------------------------------------------------------
  // Objects as ordered key/value lists

  function Keys<V>(r: Entries<V>): (ks: seq<string>)
    ensures |ks| == |r|
    ensures forall i :: 0 <= i < |r| ==> ks[i] == r[i].0
  {
    if r == [] then [] else [r[0].0] + Keys(r[1..])
  }

  lemma KeysPrefix<V>(r: Entries<V>, n: nat)
    requires n <= |r|
    ensures Keys(r[..n]) == Keys(r)[..n]
  {
  }

  predicate DistinctKeys<V>(r: Entries<V>)
  {
    forall i, j :: 0 <= i < j < |r| ==> r[i].0 != r[j].0
  }

  /** `r[k]`, `None` when the key is absent. */
  function Get<V>(r: Entries<V>, k: string): (v: Option<V>)
    ensures v.None? <==> k !in Keys(r)
    ensures v.Some? ==> (k, v.value) in r
  {
    if r == [] then None
    else if r[0].0 == k then Some(r[0].1)
    else Get(r[1..], k)
  }

  // ---------------------------------------------------------------------------
  // The order of keys

  /** An array index: the decimal text, with no leading zero, of a number
      below 2^32 - 1. JavaScript lists these keys before all others. */
  predicate IsIndexKey(k: string)
  {
    |k| >= 1 && '0' <= k[0] <= '9' && Strings.AllDigits(k) && (k[0] != '0' || |k| == 1) &&
    Strings.DecimalValue(k) < 0xFFFF_FFFF
  }

  /** Two index keys with the same number are the same key. */
  lemma IndexKeyInjective(a: string, b: string)
    requires IsIndexKey(a) && IsIndexKey(b) && Strings.DecimalValue(a) == Strings.DecimalValue(b)
    ensures a == b
  {
    if a[0] == '0' && b[0] != '0' {
      Strings.DecimalPositive(b);
    } else if a[0] != '0' && b[0] == '0' {
      Strings.DecimalPositive(a);
    } else if a[0] != '0' {
      Strings.DecimalValueInjective(a, b);
    }
  }

  /** Whether a new key `k` is listed before the existing key `k'`. */
  predicate GoesBefore(k: string, k': string)
  {
    IsIndexKey(k) && (!IsIndexKey(k') || Strings.DecimalValue(k) < Strings.DecimalValue(k'))
  }

  /** The order `Object.keys` lists the keys of an ordinary object in:
      index keys first, in ascending numeric order, then the other keys. */
  predicate InJsOrder<V>(r: Entries<V>)
  {
    forall i, j :: 0 <= i < j < |r| && IsIndexKey(r[j].0) ==>
      IsIndexKey(r[i].0) && Strings.DecimalValue(r[i].0) < Strings.DecimalValue(r[j].0)
  }

  /** A record with no index key is in order whatever its order. */
  lemma NoIndexKeyInJsOrder<V>(r: Entries<V>)
    requires forall i :: 0 <= i < |r| ==> !IsIndexKey(r[i].0)
    ensures InJsOrder(r)
  {
  }

  /** Where a new key goes: before the first key it is listed before, else
      at the end. */
  function Slot<V>(r: Entries<V>, k: string): (p: nat)
    ensures p <= |r|
    ensures !IsIndexKey(k) ==> p == |r|
  {
    if r == [] then 0 else if GoesBefore(k, r[0].0) then 0 else 1 + Slot(r[1..], k)
  }

  // ---------------------------------------------------------------------------
  // Defining and assigning a key

  /** Creating or writing the own property `k` (a member of a parsed object,
      a spread, `Object.fromEntries`, a literal, or `r[k] = v` for any key
      but `__proto__`): an existing key is overwritten where it stands, a new
      key goes to its `Slot`. */
  function Put<V>(r: Entries<V>, k: string, v: V): (r': Entries<V>)
    ensures k in Keys(r) ==> Keys(r') == Keys(r)
  {
    if r == [] then [(k, v)]
    else if r[0].0 == k then [(k, v)] + r[1..]
    else if k !in Keys(r) && GoesBefore(k, r[0].0) then [(k, v)] + r
    else [r[0]] + Put(r[1..], k, v)
  }

  /** Reading after writing: the written key has the new value and every
      other key is untouched. */
  lemma {:induction false} PutGet<V>(r: Entries<V>, k: string, v: V, k': string)
    ensures Get(Put(r, k, v), k') == if k' == k then Some(v) else Get(r, k')
  {
    if r != [] && r[0].0 != k && !(k !in Keys(r) && GoesBefore(k, r[0].0)) {
      PutGet(r[1..], k, v, k');
    }
  }

  /** Writing adds exactly the written key. */
  lemma {:induction false} PutKeys<V>(r: Entries<V>, k: string, v: V)
    ensures forall k' :: k' in Keys(Put(r, k, v)) <==> k' == k || k' in Keys(r)
    ensures |Put(r, k, v)| == if k in Keys(r) then |r| else |r| + 1
  {
    if r != [] && r[0].0 != k && !(k !in Keys(r) && GoesBefore(k, r[0].0)) {
      PutKeys(r[1..], k, v);
      assert Keys(r) == [r[0].0] + Keys(r[1..]);
      assert Keys(Put(r, k, v)) == [r[0].0] + Keys(Put(r[1..], k, v));
    }
  }

  /** A new key is inserted at its slot and the others keep their order. */
  lemma {:induction false} PutInserts<V>(r: Entries<V>, k: string, v: V)
    requires k !in Keys(r)
    ensures Put(r, k, v) == r[..Slot(r, k)] + [(k, v)] + r[Slot(r, k)..]
  {
    if r != [] && !GoesBefore(k, r[0].0) {
      assert Keys(r)[0] == r[0].0 && Keys(r) == [r[0].0] + Keys(r[1..]);
      PutInserts(r[1..], k, v);
      ConsSplice(r, Put(r[1..], k, v), (k, v), Slot(r[1..], k));
    } else {
      assert r[..0] == [] && r[0..] == r;
    }
  }

  lemma ConsSplice<V>(r: Entries<V>, m: Entries<V>, e: (string, V), p: nat)
    requires r != [] && p <= |r| - 1 && m == r[1..][..p] + [e] + r[1..][p..]
    ensures [r[0]] + m == r[..p + 1] + [e] + r[p + 1..]
  {
    assert r[..p + 1] == [r[0]] + r[1..][..p];
    assert r[p + 1..] == r[1..][p..];
  }

  /** A new key that is not an index is appended. */
  lemma PutAppends<V>(r: Entries<V>, k: string, v: V)
    requires k !in Keys(r) && !IsIndexKey(k)
    ensures Put(r, k, v) == r + [(k, v)]
  {
    PutInserts(r, k, v);
    assert r[..|r|] == r;
  }

  lemma ConsDistinct<V>(e: (string, V), r: Entries<V>)
    requires DistinctKeys(r) && e.0 !in Keys(r)
    ensures DistinctKeys([e] + r)
  {
    forall i, j | 0 <= i < j < |[e] + r| ensures ([e] + r)[i].0 != ([e] + r)[j].0 {
      if i == 0 {
        assert ([e] + r)[j].0 == Keys(r)[j - 1];
      }
    }
  }

  lemma {:induction false} PutKeepsKeysDistinct<V>(r: Entries<V>, k: string, v: V)
    requires DistinctKeys(r)
    ensures DistinctKeys(Put(r, k, v))
  {
    if r == [] {
    } else if r[0].0 == k {
      assert forall i :: 0 <= i < |r| ==> Put(r, k, v)[i].0 == r[i].0;
    } else if k !in Keys(r) && GoesBefore(k, r[0].0) {
      ConsDistinct((k, v), r);
    } else {
      PutKeepsKeysDistinct(r[1..], k, v);
      PutKeys(r[1..], k, v);
      assert r[0].0 !in Keys(r[1..]);
      ConsDistinct(r[0], Put(r[1..], k, v));
    }
  }

  /** An entry put before keys in order, ahead of every index key among
      them, keeps them in order. */
  lemma ConsJsOrder<V>(e: (string, V), t: Entries<V>)
    requires InJsOrder(t)
    requires forall j :: 0 <= j < |t| && IsIndexKey(t[j].0) ==>
      IsIndexKey(e.0) && Strings.DecimalValue(e.0) < Strings.DecimalValue(t[j].0)
    ensures InJsOrder([e] + t)
  {
    var r := [e] + t;
    forall i, j | 0 <= i < j < |r| && IsIndexKey(r[j].0)
      ensures IsIndexKey(r[i].0) && Strings.DecimalValue(r[i].0) < Strings.DecimalValue(r[j].0)
    {
      assert r[j] == t[j - 1];
      if i > 0 {
        assert r[i] == t[i - 1];
      }
    }
  }

  lemma InsertFrontJsOrder<V>(r: Entries<V>, k: string, v: V)
    requires InJsOrder(r) && r != [] && GoesBefore(k, r[0].0)
    ensures InJsOrder([(k, v)] + r)
  {
    forall j | 0 <= j < |r| && IsIndexKey(r[j].0)
      ensures IsIndexKey(k) && Strings.DecimalValue(k) < Strings.DecimalValue(r[j].0)
    {
    }
    ConsJsOrder((k, v), r);
  }

  lemma OverwriteJsOrder<V>(r: Entries<V>, k: string, v: V)
    requires InJsOrder(r) && r != [] && r[0].0 == k
    ensures InJsOrder([(k, v)] + r[1..])
  {
    var r' := [(k, v)] + r[1..];
    assert forall i :: 0 <= i < |r| ==> r'[i].0 == r[i].0;
  }

  /** The first entry, kept ahead of a new key it is not listed after. */
  lemma HeadBeforeJsOrder<V>(r: Entries<V>, k: string, v: V)
    requires InJsOrder(r) && r != [] && r[0].0 != k
    requires !(k !in Keys(r) && GoesBefore(k, r[0].0))
    requires InJsOrder(Put(r[1..], k, v))
    ensures InJsOrder([r[0]] + Put(r[1..], k, v))
  {
    var t := Put(r[1..], k, v);
    PutKeys(r[1..], k, v);
    forall j | 0 <= j < |t| && IsIndexKey(t[j].0)
      ensures IsIndexKey(r[0].0) && Strings.DecimalValue(r[0].0) < Strings.DecimalValue(t[j].0)
    {
      assert t[j].0 == Keys(t)[j];
      HeadBefore(r, k, t[j].0);
    }
    ConsJsOrder(r[0], t);
  }

  lemma HeadBefore<V>(r: Entries<V>, k: string, x: string)
    requires InJsOrder(r) && r != [] && r[0].0 != k
    requires !(k !in Keys(r) && GoesBefore(k, r[0].0))
    requires x == k || x in Keys(r[1..])
    requires IsIndexKey(x)
    ensures IsIndexKey(r[0].0) && Strings.DecimalValue(r[0].0) < Strings.DecimalValue(x)
  {
    if x in Keys(r[1..]) {
      LaterIndexKey(r, x);
    } else {
      assert Keys(r) == [r[0].0] + Keys(r[1..]);
      NewIndexKeyAfter(r[0].0, k);
    }
  }

  /** An index key after the first entry has a larger number than it. */
  lemma LaterIndexKey<V>(r: Entries<V>, x: string)
    requires InJsOrder(r) && r != [] && x in Keys(r[1..]) && IsIndexKey(x)
    ensures IsIndexKey(r[0].0) && Strings.DecimalValue(r[0].0) < Strings.DecimalValue(x)
  {
    var m :| 0 <= m < |r[1..]| && Keys(r[1..])[m] == x;
    assert r[1..][m] == r[m + 1];
  }

  /** A new index key not listed before `k0` has a larger number. */
  lemma NewIndexKeyAfter(k0: string, k: string)
    requires k0 != k && IsIndexKey(k) && !GoesBefore(k, k0)
    ensures IsIndexKey(k0) && Strings.DecimalValue(k0) < Strings.DecimalValue(k)
  {
    if Strings.DecimalValue(k0) == Strings.DecimalValue(k) {
      IndexKeyInjective(k0, k);
    }
  }

  /** Writing keeps the keys in the order `Object.keys` lists them. */
  lemma {:induction false} PutKeepsJsOrder<V>(r: Entries<V>, k: string, v: V)
    requires InJsOrder(r)
    ensures InJsOrder(Put(r, k, v))
  {
    if r == [] {
    } else if r[0].0 == k {
      OverwriteJsOrder(r, k, v);
    } else if k !in Keys(r) && GoesBefore(k, r[0].0) {
      InsertFrontJsOrder(r, k, v);
    } else {
      assert InJsOrder(r[1..]) by {
        forall i, j | 0 <= i < j < |r[1..]| && IsIndexKey(r[1..][j].0)
          ensures IsIndexKey(r[1..][i].0) && Strings.DecimalValue(r[1..][i].0) < Strings.DecimalValue(r[1..][j].0)
        {
          assert r[1..][i] == r[i + 1] && r[1..][j] == r[j + 1];
        }
      }
      PutKeepsJsOrder(r[1..], k, v);
      HeadBeforeJsOrder(r, k, v);
    }
  }

  /** The name assigning to which sets the prototype of an object that has
      no own property of that name, and creates no key. */
  const ProtoKey := "__proto__"

  /** `r[k] = v`. */
  function Assign<V>(r: Entries<V>, k: string, v: V): Entries<V>
  {
    if k == ProtoKey && k !in Keys(r) then r else Put(r, k, v)
  }

  /** The entries that an assignment loop over an object without an own
      `__proto__` turns into keys. */
  function Assignable<A>(es: Entries<A>): (fs: Entries<A>)
    ensures forall e :: e in fs ==> e in es
  {
    if es == [] then []
    else
      var n := |es| - 1;
      var rest := Assignable(es[..n]);
      if es[n].0 == ProtoKey then rest else rest + [es[n]]
  }

  lemma KeysAppend<V>(r: Entries<V>, e: (string, V))
    ensures Keys(r + [e]) == Keys(r) + [e.0]
  {
  }

  lemma {:induction false} AssignableKeys<A>(es: Entries<A>)
    ensures forall k :: k in Keys(Assignable(es)) <==> k in Keys(es) && k != ProtoKey
  {
    if es != [] {
      var n := |es| - 1;
      var x := es[n].0;
      AssignableKeys(es[..n]);
      KeysPrefix(es, n);
      assert Keys(es) == Keys(es[..n]) + [x];
      if x != ProtoKey {
        assert Assignable(es) == Assignable(es[..n]) + [es[n]];
        KeysAppend(Assignable(es[..n]), es[n]);
      } else {
        assert Assignable(es) == Assignable(es[..n]);
      }
      KeptKeysSnoc(Keys(Assignable(es[..n])), Keys(es[..n]), x);
    }
  }

  /** One more key: kept unless it is `__proto__`. */
  lemma KeptKeysSnoc(a: seq<string>, b: seq<string>, x: string)
    requires forall k :: k in a <==> k in b && k != ProtoKey
    ensures forall k :: k in (if x != ProtoKey then a + [x] else a) <==> k in b + [x] && k != ProtoKey
  {
  }

  /** The last value an assignment loop gives a key other than `__proto__`
      is the last the entries give it. */
  lemma {:induction false} AssignableLastFor<A>(es: Entries<A>, k: string)
    requires k in Keys(es) && k != ProtoKey
    ensures k in Keys(Assignable(es))
    ensures LastFor(Assignable(es), k) == LastFor(es, k)
  {
    var n := |es| - 1;
    var rest := Assignable(es[..n]);
    KeysPrefix(es, n);
    if es[n].0 == k {
      assert Assignable(es) == rest + [es[n]];
      LastForSnoc(rest, es[n], k);
    } else {
      assert k in Keys(es[..n]);
      assert LastFor(es, k) == LastFor(es[..n], k);
      AssignableLastFor(es[..n], k);
      if es[n].0 != ProtoKey {
        assert Assignable(es) == rest + [es[n]];
        LastForSnoc(rest, es[n], k);
      } else {
        assert Assignable(es) == rest;
      }
    }
  }

  lemma LastForSnoc<A>(r: Entries<A>, e: (string, A), k: string)
    requires k in Keys(r) || k == e.0
    ensures k in Keys(r + [e])
    ensures LastFor(r + [e], k) == if k == e.0 then e.1 else LastFor(r, k)
  {
    KeysAppend(r, e);
    assert (r + [e])[..|r|] == r;
  }

  // ---------------------------------------------------------------------------
  // Copying entries into an object, one key after another

  /** The object `init` after defining `f(value)` under `key` for every entry
      of `es` in order (a spread, `Object.fromEntries`, or an assignment loop
      that meets no `__proto__`). */
  function Copy<A, B>(init: Entries<B>, es: Entries<A>, f: A -> B): Entries<B>
  {
    if es == [] then init
    else
      var last := es[|es| - 1];
      Put(Copy(init, es[..|es| - 1], f), last.0, f(last.1))
  }

  lemma CopySnoc<A, B>(init: Entries<B>, es: Entries<A>, e: (string, A), f: A -> B)
    ensures Copy(init, es + [e], f) == Put(Copy(init, es, f), e.0, f(e.1))
  {
    assert (es + [e])[..|es|] == es;
  }

  /** The value the last entry with key `k` carries: the one a sequence of
      assignments leaves behind. */
  function LastFor<A>(es: Entries<A>, k: string): A
    requires k in Keys(es)
  {
    var n := |es| - 1;
    if es[n].0 == k then es[n].1
    else
      KeysPrefix(es, n);
      LastFor(es[..n], k)
  }

  /** Reading a key of the copied object: the last entry for it wins, and
      keys no entry names keep their initial value. */
  lemma {:induction false} CopyGet<A, B>(init: Entries<B>, es: Entries<A>, f: A -> B, k: string)
    ensures Get(Copy(init, es, f), k) ==
            if k in Keys(es) then Some(f(LastFor(es, k))) else Get(init, k)
  {
    if es != [] {
      var n := |es| - 1;
      KeysPrefix(es, n);
      assert Keys(es) == Keys(es[..n]) + [es[n].0];
      CopyGet(init, es[..n], f, k);
      var prev := Copy(init, es[..n], f);
      assert Copy(init, es, f) == Put(prev, es[n].0, f(es[n].1));
      PutGet(prev, es[n].0, f(es[n].1), k);
      if es[n].0 != k && k in Keys(es) {
        assert k in Keys(es[..n]);
        assert LastFor(es, k) == LastFor(es[..n], k);
      }
    }
  }

  /** The keys of the copied object: the initial keys and the entries' keys. */
  lemma {:induction false} CopyKeys<A, B>(init: Entries<B>, es: Entries<A>, f: A -> B)
    ensures forall k :: k in Keys(Copy(init, es, f)) <==> k in Keys(init) || k in Keys(es)
  {
    if es != [] {
      var n := |es| - 1;
      assert Keys(es) == Keys(es[..n]) + [es[n].0];
      CopyKeys(init, es[..n], f);
      PutKeys(Copy(init, es[..n], f), es[n].0, f(es[n].1));
    }
  }

  lemma {:induction false} CopyKeepsKeysDistinct<A, B>(init: Entries<B>, es: Entries<A>, f: A -> B)
    requires DistinctKeys(init)
    ensures DistinctKeys(Copy(init, es, f))
  {
    if es != [] {
      var n := |es| - 1;
      CopyKeepsKeysDistinct(init, es[..n], f);
      PutKeepsKeysDistinct(Copy(init, es[..n], f), es[n].0, f(es[n].1));
    }
  }

  /** Whatever order the entries come in, the copied object lists its keys
      the way `Object.keys` does. */
  lemma {:induction false} CopyKeepsJsOrder<A, B>(init: Entries<B>, es: Entries<A>, f: A -> B)
    requires InJsOrder(init)
    ensures InJsOrder(Copy(init, es, f))
  {
    if es != [] {
      var n := |es| - 1;
      CopyKeepsJsOrder(init, es[..n], f);
      PutKeepsJsOrder(Copy(init, es[..n], f), es[n].0, f(es[n].1));
    }
  }

  /** Every value of the copied object is an initial value or a converted
      one; so when both kinds satisfy `P`, all do. */
  lemma {:induction false} CopyValues<A, B>(init: Entries<B>, es: Entries<A>, f: A -> B, P: B -> bool)
    requires forall i :: 0 <= i < |init| ==> P(init[i].1)
    requires forall e :: e in es ==> P(f(e.1))
    ensures forall i :: 0 <= i < |Copy(init, es, f)| ==> P(Copy(init, es, f)[i].1)
  {
    if es != [] {
      var n := |es| - 1;
      var prev := Copy(init, es[..n], f);
      assert forall e :: e in es[..n] ==> e in es;
      CopyValues(init, es[..n], f, P);
      assert es[n] in es;
      PutValues(prev, es[n].0, f(es[n].1), P);
    }
  }

  lemma {:induction false} PutValues<V>(r: Entries<V>, k: string, v: V, P: V -> bool)
    requires forall i :: 0 <= i < |r| ==> P(r[i].1)
    requires P(v)
    ensures forall i :: 0 <= i < |Put(r, k, v)| ==> P(Put(r, k, v)[i].1)
  {
    if r != [] && r[0].0 != k && !(k !in Keys(r) && GoesBefore(k, r[0].0)) {
      PutValues(r[1..], k, v, P);
    }
  }

  /** The conversion that keeps a value as it is. */
  function Id<V>(v: V): V
  {
    v
  }

  /** With distinct keys the last value for a key is the only one. */
  lemma {:induction false} LastForIsGet<V>(es: Entries<V>, k: string)
    requires DistinctKeys(es) && k in Keys(es)
    ensures Get(es, k) == Some(LastFor(es, k))
  {
    var n := |es| - 1;
    var v := Get(es, k).value;
    var i :| 0 <= i < |es| && es[i] == (k, v);
    if es[n].0 == k {
      assert i == n;
    } else {
      KeysPrefix(es, n);
      LastForIsGet(es[..n], k);
      var w := Get(es[..n], k).value;
      var j :| 0 <= j < n && es[..n][j] == (k, w);
      assert es[j] == (k, w);
      assert i == j;
    }
  }

  /** Spreading an object with distinct keys over `init`: its keys take its
      values, every other key keeps the one in `init`. */
  lemma SpreadGet<V>(init: Entries<V>, es: Entries<V>, k: string)
    requires DistinctKeys(es)
    ensures Get(Copy(init, es, Id), k) == if k in Keys(es) then Get(es, k) else Get(init, k)
  {
    CopyGet(init, es, Id, k);
    if k in Keys(es) {
      LastForIsGet(es, k);
    }
  }

  // ---------------------------------------------------------------------------
  // The assignment loop

  /** The object `init` after `result[key] = f(value)` for every entry of
      `es` in order: an object without an own `__proto__` never gains one,
      since assigning it only sets the prototype. */
  function Assigned<A, B>(init: Entries<B>, es: Entries<A>, f: A -> B): Entries<B>
  {
    if ProtoKey in Keys(init) then Copy(init, es, f) else Copy(init, Assignable(es), f)
  }

  /** Reading a key after the loop: the last value the entries give it,
      converted, unless it is a `__proto__` the object did not own; else the
      initial value. */
  lemma AssignedGet<A, B>(init: Entries<B>, es: Entries<A>, f: A -> B, k: string)
    ensures Get(Assigned(init, es, f), k) ==
      if k in Keys(es) && (k != ProtoKey || ProtoKey in Keys(init)) then Some(f(LastFor(es, k)))
      else Get(init, k)
  {
    if ProtoKey in Keys(init) {
      CopyGet(init, es, f, k);
    } else {
      CopyGet(init, Assignable(es), f, k);
      AssignableKeys(es);
      if k in Keys(es) && k != ProtoKey {
        AssignableLastFor(es, k);
      }
    }
  }

  /** After the loop the object lists its keys the way `Object.keys` does. */
  /** Assigning one entry whose key is not `__proto__` writes that key. */
  lemma AssignedOne<A, B>(init: Entries<B>, k: string, x: A, f: A -> B)
    requires k != ProtoKey
    ensures Assigned(init, [(k, x)], f) == Put(init, k, f(x))
  {
    var es := [(k, x)];
    assert es[..0] == [] && es[0] == (k, x);
    assert Assignable<A>([]) == [];
    assert Assignable(es) == es;
    assert Copy(init, es, f) == Put(Copy(init, [], f), k, f(x));
  }

  lemma AssignedInJsOrder<A, B>(init: Entries<B>, es: Entries<A>, f: A -> B)
    requires InJsOrder(init)
    ensures InJsOrder(Assigned(init, es, f))
  {
    CopyKeepsJsOrder(init, es, f);
    CopyKeepsJsOrder(init, Assignable(es), f);
  }

  /** After the loop the keys are still distinct and in `Object.keys`
      order, whatever the entries were. */
  lemma AssignedKeyOrder<A, B>(init: Entries<B>, es: Entries<A>, f: A -> B)
    requires DistinctKeys(init) && InJsOrder(init)
    ensures DistinctKeys(Assigned(init, es, f)) && InJsOrder(Assigned(init, es, f))
  {
    AssignedInJsOrder(init, es, f);
    CopyKeepsKeysDistinct(init, es, f);
    CopyKeepsKeysDistinct(init, Assignable(es), f);
  }

  lemma AssignedValues<A, B>(init: Entries<B>, es: Entries<A>, f: A -> B, P: B -> bool)
    requires forall i :: 0 <= i < |init| ==> P(init[i].1)
    requires forall e :: e in es ==> P(f(e.1))
    ensures forall i :: 0 <= i < |Assigned(init, es, f)| ==> P(Assigned(init, es, f)[i].1)
  {
    CopyValues(init, es, f, P);
    CopyValues(init, Assignable(es), f, P);
  }

  /** One more assignment after the loop so far. */
  lemma AssignedSnoc<A, B>(init: Entries<B>, es: Entries<A>, e: (string, A), f: A -> B)
    ensures Assigned(init, es + [e], f) == Assign(Assigned(init, es, f), e.0, f(e.1))
  {
    var n := |es + [e]| - 1;
    assert (es + [e])[..n] == es && (es + [e])[n] == e;
    if ProtoKey in Keys(init) {
      CopyKeys(init, es, f);
      CopySnoc(init, es, e, f);
    } else {
      CopyKeys(init, Assignable(es), f);
      AssignableKeys(es);
      if e.0 != ProtoKey {
        assert Assignable(es + [e]) == Assignable(es) + [e];
        CopySnoc(init, Assignable(es), e, f);
      } else {
        assert Assignable(es + [e]) == Assignable(es);
      }
    }
  }

  // ---------------------------------------------------------------------------
  // The assignment loop with a conversion that may throw

  /** Every entry's value converts without throwing. */
  predicate Converts<A, B>(es: Entries<A>, f: A -> Option<B>)
  {
    forall i :: 0 <= i < |es| ==> f(es[i].1).Some?
  }

  /** The entries with their values converted. */
  function Converted<A, B>(es: Entries<A>, f: A -> Option<B>): Entries<B>
    requires Converts(es, f)
  {
    if es == [] then []
    else
      var n := |es| - 1;
      ConvertsPrefix(es, f, n);
      Converted(es[..n], f) + [(es[n].0, f(es[n].1).value)]
  }

  lemma ConvertsPrefix<A, B>(es: Entries<A>, f: A -> Option<B>, n: nat)
    requires Converts(es, f) && n <= |es|
    ensures Converts(es[..n], f)
  {
    assert forall i :: 0 <= i < n ==> es[..n][i] == es[i];
  }

  /** Converting keeps the keys. */
  lemma {:induction false} ConvertedKeys<A, B>(es: Entries<A>, f: A -> Option<B>)
    requires Converts(es, f)
    ensures Keys(Converted(es, f)) == Keys(es)
  {
    if es != [] {
      var n := |es| - 1;
      ConvertsPrefix(es, f, n);
      ConvertedKeys(es[..n], f);
      KeysPrefix(es, n);
      KeysAppend(Converted(es[..n], f), (es[n].0, f(es[n].1).value));
      assert Keys(es) == Keys(es)[..n] + [es[n].0];
    }
  }

  /** The loop `result[key] = f(value)` inside a `try`: when a
      conversion throws, the loop is left and the half-built object is lost
      with it (`None`); otherwise the object the loop builds. */
  function TryAssigned<A, B>(init: Entries<B>, es: Entries<A>, f: A -> Option<B>): (r: Option<Entries<B>>)
    ensures r.Some? <==> Converts(es, f)
  {
    if Converts(es, f) then Some(Assigned(init, Converted(es, f), Id)) else None
  }

  /** Every converted entry is an entry with its value converted. */
  lemma {:induction false} ConvertedEntries<A, B>(es: Entries<A>, f: A -> Option<B>)
    requires Converts(es, f)
    ensures forall e :: e in Converted(es, f) ==> exists i :: 0 <= i < |es| && e == (es[i].0, f(es[i].1).value)
  {
    if es != [] {
      var n := |es| - 1;
      ConvertsPrefix(es, f, n);
      ConvertedEntries(es[..n], f);
      forall e | e in Converted(es, f)
        ensures exists i :: 0 <= i < |es| && e == (es[i].0, f(es[i].1).value)
      {
        if e in Converted(es[..n], f) {
          var i :| 0 <= i < n && e == (es[..n][i].0, f(es[..n][i].1).value);
          assert es[..n][i] == es[i];
        } else {
          assert e == (es[n].0, f(es[n].1).value);
        }
      }
    }
  }

  /** Converting first and taking the last value for a key afterwards is
      converting the last value. */
  lemma {:induction false} ConvertedLastFor<A, B>(es: Entries<A>, f: A -> Option<B>, k: string)
    requires Converts(es, f) && k in Keys(es)
    ensures k in Keys(Converted(es, f))
    ensures f(LastFor(es, k)) == Some(LastFor(Converted(es, f), k))
  {
    var n := |es| - 1;
    ConvertedKeys(es, f);
    if es[n].0 != k {
      ConvertsPrefix(es, f, n);
      var rest := Converted(es[..n], f);
      assert k in Keys(es[..n]) by {
        KeysPrefix(es, n);
      }
      ConvertedLastFor(es[..n], f, k);
      LastForSnoc(rest, (es[n].0, f(es[n].1).value), k);
    } else {
      LastForSnoc(Converted(es[..n], f), (es[n].0, f(es[n].1).value), k);
    }
  }

  /** Reading a key after a loop that did not throw: the last value the
      entries give it, converted, unless it is a `__proto__` the object did
      not own; else the initial value. */
  lemma TryAssignedGet<A, B>(init: Entries<B>, es: Entries<A>, f: A -> Option<B>, k: string)
    requires Converts(es, f)
    ensures Get(TryAssigned(init, es, f).value, k) ==
      if k in Keys(es) && (k != ProtoKey || ProtoKey in Keys(init)) then f(LastFor(es, k))
      else Get(init, k)
  {
    var cs := Converted(es, f);
    AssignedGet(init, cs, Id, k);
    ConvertedKeys(es, f);
    if k in Keys(es) {
      ConvertedLastFor(es, f, k);
    }
  }

  /** A loop that did not throw leaves the keys distinct and in
      `Object.keys` order. */
  lemma TryAssignedKeyOrder<A, B>(init: Entries<B>, es: Entries<A>, f: A -> Option<B>)
    requires DistinctKeys(init) && InJsOrder(init) && Converts(es, f)
    ensures DistinctKeys(TryAssigned(init, es, f).value) && InJsOrder(TryAssigned(init, es, f).value)
  {
    AssignedKeyOrder(init, Converted(es, f), Id);
  }

  /** When the initial values and every converted value satisfy `P`, all
      values of the object do. */
  lemma TryAssignedValues<A, B>(init: Entries<B>, es: Entries<A>, f: A -> Option<B>, P: B -> bool)
    requires forall i :: 0 <= i < |init| ==> P(init[i].1)
    requires Converts(es, f) && forall i :: 0 <= i < |es| ==> P(f(es[i].1).value)
    ensures forall i :: 0 <= i < |TryAssigned(init, es, f).value| ==> P(TryAssigned(init, es, f).value[i].1)
  {
    var cs := Converted(es, f);
    ConvertedEntries(es, f);
    AssignedValues(init, cs, Id, P);
  }

  /** One entry whose key is not `__proto__` and whose value converts:
      that key is written. */
  lemma TryAssignedOne<A, B>(init: Entries<B>, k: string, x: A, f: A -> Option<B>)
    requires k != ProtoKey && f(x).Some?
    ensures TryAssigned(init, [(k, x)], f) == Some(Put(init, k, f(x).value))
  {
    assert [(k, x)][..0] == [];
    assert Converted([(k, x)], f) == [(k, f(x).value)];
    AssignedOne(init, k, f(x).value, Id);
  }

  /** One entry whose value throws: the loop throws. */
  lemma TryAssignedThrows<A, B>(init: Entries<B>, es: Entries<A>, i: nat, f: A -> Option<B>)
    requires i < |es| && f(es[i].1).None?
    ensures TryAssigned(init, es, f).None?
  {
  }

  /** One more entry that converts. */
  lemma ConvertedSnoc<A, B>(es: Entries<A>, f: A -> Option<B>, i: nat)
    requires i < |es| && Converts(es[..i], f) && f(es[i].1).Some?
    ensures Converts(es[..i + 1], f)
    ensures Converted(es[..i + 1], f) == Converted(es[..i], f) + [(es[i].0, f(es[i].1).value)]
  {
    assert es[..i + 1][..i] == es[..i];
  }

  /** The loop `es.forEach(([key, value]) => { result[key] = f(value) })`
      over a fresh `result` that starts as `init`; `None` when a call of
      `f` throws. */
  method TryCopyInto<A, B>(init: Entries<B>, es: Entries<A>, f: A -> Option<B>) returns (r: Option<Entries<B>>)
    ensures r == TryAssigned(init, es, f)
  {
    var result := init;
    var i := 0;
    while i < |es|
      invariant 0 <= i <= |es|
      invariant Converts(es[..i], f)
      invariant result == Assigned(init, Converted(es[..i], f), Id)
    {
      var v := f(es[i].1);
      if v.None? {
        TryAssignedThrows(init, es, i, f);
        return None;
      }
      var cs := Converted(es[..i], f);
      ConvertedSnoc(es, f, i);
      AssignedSnoc(init, cs, (es[i].0, v.value), Id);
      result := Assign(result, es[i].0, v.value);
      i := i + 1;
    }
    assert es[..|es|] == es;
    return Some(result);
  }

  // ---------------------------------------------------------------------------
  // Object.entries and String()

  /** The members of a parsed object after duplicates are merged: a repeated
      key keeps its first position and its last value. */
  function ObjEntries(ms: Entries<Json>): (es: Entries<Json>)
    ensures DistinctKeys(es) && InJsOrder(es)
  {
    CopyKeepsKeysDistinct([], ms, Id);
    CopyKeepsJsOrder([], ms, Id);
    Copy([], ms, Id)
  }

  /** `Object.entries(j)`: own enumerable properties as key/value pairs;
      `None` where it throws a `TypeError` (on `null`). Arrays and strings
      are indexed by the decimal text of their positions. */
  function EntriesOf(j: Json): (r: Option<Entries<Json>>)
    ensures r.None? <==> j.JNull?
    ensures r.Some? ==> DistinctKeys(r.value)
  {
    match j
    case JNull => None
    case JBool(_) => Some([])
    case JNum(_) => Some([])
    case JStr(s) =>
      IndexKeysDistinct(|s|);
      Some(seq(|s|, i requires 0 <= i < |s| => (Strings.NatToString(i), JStr([s[i]]))))
    case JArr(xs) =>
      IndexKeysDistinct(|xs|);
      Some(seq(|xs|, i requires 0 <= i < |xs| => (Strings.NatToString(i), xs[i])))
    case JObj(ms) => Some(ObjEntries(ms))
  }

  lemma IndexKeysDistinct(n: nat)
    ensures forall i, j :: 0 <= i < j < n ==> Strings.NatToString(i) != Strings.NatToString(j)
  {
    forall i, j | 0 <= i < j < n ensures Strings.NatToString(i) != Strings.NatToString(j) {
      Strings.NatToStringInjective(i, j);
    }
  }

  // ---------------------------------------------------------------------------
  // String(), join and template conversion

  /** The values `String(j)` converts: `j` itself and, inside an array, every
      element at any depth. It throws exactly when one of them is an object
      that owns a "toString" key: JSON cannot make that value callable, so
      the conversion falls through to `valueOf`, which gives the object
      back, and ends in a `TypeError`. */
  predicate Unprintable(j: Json)
  {
    match j
    case JObj(ms) => "toString" in Keys(ms)
    case JArr(xs) => exists i :: 0 <= i < |xs| && Unprintable(xs[i])
    case _ => false
  }

  /** Every option holds a value: then the values, in order. */
  function AllSome<T>(os: seq<Option<T>>): (r: Option<seq<T>>)
    ensures r.Some? <==> forall i :: 0 <= i < |os| ==> os[i].Some?
    ensures r.Some? ==> |r.value| == |os| && forall i :: 0 <= i < |os| ==> r.value[i] == os[i].value
  {
    if forall i :: 0 <= i < |os| ==> os[i].Some? then Some(seq(|os|, i requires 0 <= i < |os| => os[i].value))
    else None
  }

  /** `String(j)`, or `None` where it throws: arrays print their elements
      joined by "," with `null` elements empty, objects print
      "[object Object]". */
  function ToStr(j: Json): (r: Option<string>)
    decreases j, 1
    ensures j.JNull? ==> r == Some("null")
    ensures j.JBool? ==> r == Some(if j.b then "true" else "false")
    ensures j.JNum? ==> r == Some(j.text)
    ensures j.JStr? ==> r == Some(j.s)
    ensures j.JObj? && r.Some? ==> r.value == "[object Object]"
    ensures j.JArr? && j.elems == [] ==> r == Some("")
  {
    match j
    case JNull => Some("null")
    case JBool(b) => Some(if b then "true" else "false")
    case JNum(t) => Some(t)
    case JStr(s) => Some(s)
    case JArr(xs) => (match ElementTexts(xs) case None => None case Some(ts) => Some(Strings.Join(ts, ",")))
    case JObj(ms) => if "toString" in Keys(ms) then None else Some("[object Object]")
  }

  /** The elements of an array as `Array.prototype.join` prints them;
      `None` when one of them throws. */
  function ElementTexts(xs: seq<Json>): (ts: Option<seq<string>>)
    decreases xs, 0
    ensures ts.Some? ==> |ts.value| == |xs|
  {
    AllSome(seq(|xs|, i requires 0 <= i < |xs| => ElementText(xs[i])))
  }

  /** One element as `join` prints it: `null` as the empty string. */
  function ElementText(x: Json): Option<string>
    decreases x, 2
  {
    if x.JNull? then Some("") else ToStr(x)
  }

  /** `String(j)` throws exactly on the unprintable values. */
  lemma {:induction false} ToStrFails(j: Json)
    ensures ToStr(j).None? <==> Unprintable(j)
  {
    if j.JArr? {
      var xs := j.elems;
      forall i | 0 <= i < |xs| ensures ElementText(xs[i]).None? <==> Unprintable(xs[i]) {
        ToStrFails(xs[i]);
      }
      var os := seq(|xs|, i requires 0 <= i < |xs| => ElementText(xs[i]));
      assert ElementTexts(xs) == AllSome(os);
      assert forall i :: 0 <= i < |xs| ==> os[i] == ElementText(xs[i]);
    }
  }

  /** A parsed value stored unchanged as a field. */
  function OfJson(j: Json): (v: Value)
    ensures v.VJson? <==> j.JArr? || j.JObj?
  {
    match j
    case JNull => VNull
    case JBool(b) => VBool(b)
    case JNum(t) => VNum(t)
    case JStr(s) => VStr(s)
    case _ => VJson(j)
  }

  /** An array that prints, with one element at least and no comma in its
      element texts, prints as those texts joined by ","; splitting the
      text at its commas gives them back. */
  lemma ArrayTextParts(xs: seq<Json>)
    requires |xs| >= 1 && ElementTexts(xs).Some?
    requires forall i :: 0 <= i < |xs| ==> ',' !in ElementTexts(xs).value[i]
    ensures ToStr(JArr(xs)).Some?
    ensures Strings.Split(ToStr(JArr(xs)).value, ',') == ElementTexts(xs).value
  {
    assert ToStr(JArr(xs)) == Some(Strings.Join(ElementTexts(xs).value, [',']));
    Strings.SplitJoin(ElementTexts(xs).value, ',');
  }

  /** The members of an object printed as `${k}: ${v}`; `None` when a
      value's conversion throws. */
  function MemberTexts(es: Entries<Json>): (ts: Option<seq<string>>)
    ensures ts.Some? <==> forall i :: 0 <= i < |es| ==> ToStr(es[i].1).Some?
    ensures ts.Some? ==> |ts.value| == |es|
    ensures ts.Some? ==> forall i :: 0 <= i < |es| ==> ts.value[i] == es[i].0 + ": " + ToStr(es[i].1).value
  {
    var os := seq(|es|, i requires 0 <= i < |es| => MemberText(es[i]));
    assert forall i :: 0 <= i < |es| ==> os[i] == MemberText(es[i]);
    AllSome(os)
  }

  function MemberText(e: (string, Json)): Option<string>
  {
    match ToStr(e.1)
    case None => None
    case Some(t) => Some(e.0 + ": " + t)
  }

  // ---------------------------------------------------------------------------
  // The two field conversions

  /** The flattening of the first-generation parser. An array becomes its
      elements joined by ", ", and throws (`None`) when one of them cannot
      be printed; an object becomes its "k: v" pairs joined by ", ", or,
      when printing a member throws, the `JSON.stringify` text of the
      object; any other value is copied unchanged. */
  function Flatten(stringify: Json -> string, j: Json): (v: Option<Value>)
    ensures v.None? <==> j.JArr? && Unprintable(j)
    ensures v.Some? ==> Flat(v.value)
    ensures j.JObj? ==> v.Some? && v.value.VStr?
    ensures j.JArr? && v.Some? ==> v.value.VStr?
    ensures !(j.JArr? || j.JObj?) ==> v == Some(OfJson(j))
  {
    ToStrFails(j);
    match j
    case JArr(xs) => (match ElementTexts(xs) case None => None case Some(ts) => Some(VStr(Strings.Join(ts, ", "))))
    case JObj(ms) =>
      (match MemberTexts(ObjEntries(ms))
       case None => Some(VStr(stringify(j)))
       case Some(ts) => Some(VStr(Strings.Join(ts, ", "))))
    case _ => Some(OfJson(j))
  }

  /** `Flatten` with the `JSON.stringify` of a runtime fixed. */
  function Flattener(stringify: Json -> string): Json -> Option<Value>
  {
    j => Flatten(stringify, j)
  }

  /** An object whose member cannot be printed is stored as its
      `JSON.stringify` text; one whose members all print, as its "k: v"
      pairs. */
  lemma FlattenObject(stringify: Json -> string, ms: Entries<Json>)
    ensures (exists i :: 0 <= i < |ObjEntries(ms)| && Unprintable(ObjEntries(ms)[i].1)) ==>
      Flatten(stringify, JObj(ms)) == Some(VStr(stringify(JObj(ms))))
    ensures (forall i :: 0 <= i < |ObjEntries(ms)| ==> !Unprintable(ObjEntries(ms)[i].1)) ==>
      MemberTexts(ObjEntries(ms)).Some? &&
      Flatten(stringify, JObj(ms)) == Some(VStr(Strings.Join(MemberTexts(ObjEntries(ms)).value, ", ")))
  {
    var es := ObjEntries(ms);
    forall i | 0 <= i < |es| ensures ToStr(es[i].1).None? <==> Unprintable(es[i].1) {
      ToStrFails(es[i].1);
    }
  }

  /** An array that prints is stored as its element texts joined by ", ":
      a `null` element as the empty string, any other element as `String`
      prints it. */
  lemma FlattenArrayJoins(stringify: Json -> string, xs: seq<Json>)
    requires !Unprintable(JArr(xs))
    ensures ElementTexts(xs).Some?
    ensures forall i :: 0 <= i < |xs| ==>
      if xs[i].JNull? then ElementTexts(xs).value[i] == "" else ToStr(xs[i]) == Some(ElementTexts(xs).value[i])
    ensures Flatten(stringify, JArr(xs)) == Some(VStr(Strings.Join(ElementTexts(xs).value, ", ")))
  {
    ToStrFails(JArr(xs));
    assert ElementTexts(xs) == AllSome(seq(|xs|, i requires 0 <= i < |xs| => ElementText(xs[i])));
  }

  /** `["a", 1, null]` is stored as "a, 1, ". */
  lemma FlattenArrayExample(stringify: Json -> string, j: Json)
    requires j == JArr([JStr("a"), JNum("1"), JNull])
    ensures Flatten(stringify, j) == Some(VStr("a, 1, "))
  {
    var xs := j.elems;
    assert !Unprintable(j) by {
      assert forall i :: 0 <= i < |xs| ==> !xs[i].JObj? && !xs[i].JArr?;
    }
    FlattenArrayJoins(stringify, xs);
    var ts := ElementTexts(xs).value;
    assert ts == ["a", "1", ""];
    assert Strings.Join(ts, ", ") == "a" + ", " + Strings.Join(ts[1..], ", ");
    assert ts[1..] == ["1", ""] && ts[1..][1..] == [""];
    assert Strings.Join(ts[1..], ", ") == "1" + ", " + Strings.Join(ts[1..][1..], ", ");
    assert Strings.Join(ts[1..][1..], ", ") == "";
    assert "a" + ", " + ("1" + ", " + "") == "a, 1, ";
  }

  /** An object's members print in the order `Object.entries` lists them:
      "8" before "10", both before any other key. */
  lemma FlattenIndexKeysExample(stringify: Json -> string, j: Json)
    requires j == JObj([("10", JStr("yes")), ("8", JStr("no"))])
    ensures Flatten(stringify, j) == Some(VStr("8: no, 10: yes"))
  {
    IndexKeysReordered(j.members);
    TwoMembersPrinted([("8", JStr("no")), ("10", JStr("yes"))]);
  }

  /** "8" is placed before the earlier "10". */
  lemma IndexKeysReordered(ms: Entries<Json>)
    requires ms == [("10", JStr("yes")), ("8", JStr("no"))]
    ensures ObjEntries(ms) == [("8", JStr("no")), ("10", JStr("yes"))]
  {
    assert ms[..1] == [("10", JStr("yes"))] && ms[..1][..0] == [];
    assert Copy([], ms[..1], Id) == [("10", JStr("yes"))];
    assert Strings.DecimalValue("8") == 8 && Strings.DecimalValue("10") == 10 by {
      assert "10"[..1] == "1" && "8"[..0] == "" && "1"[..0] == "";
    }
    assert GoesBefore("8", "10");
  }

  lemma TwoMembersPrinted(es: Entries<Json>)
    requires es == [("8", JStr("no")), ("10", JStr("yes"))]
    ensures MemberTexts(es).Some? && Strings.Join(MemberTexts(es).value, ", ") == "8: no, 10: yes"
  {
    var ts := MemberTexts(es).value;
    assert |ts| == 2 && ts[0] == "8" + ": " + "no" && ts[1] == "10" + ": " + "yes";
    assert "8" + ": " + "no" == "8: no" && "10" + ": " + "yes" == "10: yes";
    assert ts == ["8: no", "10: yes"];
    assert Strings.Join(ts, ", ") == "8: no" + ", " + Strings.Join(ts[1..], ", ");
    assert ts[1..] == ["10: yes"];
  }

  /** A nested object whose own member owns "toString": printing that member
      throws, so the object is stored as its `JSON.stringify` text. */
  lemma FlattenStringifiesExample(stringify: Json -> string, j: Json)
    requires j == JObj([("dims", JObj([("toString", JStr("x"))]))])
    ensures Flatten(stringify, j) == Some(VStr(stringify(j)))
  {
    var inner := JObj([("toString", JStr("x"))]);
    assert Keys(inner.members) == ["toString"];
    assert ObjEntries(j.members) == [("dims", inner)] by {
      assert j.members[..0] == [];
    }
    assert ToStr(inner).None?;
  }

  /** An array holding an object that owns "toString": `join` throws. */
  lemma FlattenThrowsExample(stringify: Json -> string, j: Json)
    requires j == JArr([JObj([("toString", JStr("x"))])])
    ensures Flatten(stringify, j).None?
  {
    assert Unprintable(j.elems[0]) by {
      assert Keys(j.elems[0].members) == ["toString"];
    }
  }

  /** The conversion of the second-generation parser: strings, numbers and
      `null` are kept, everything else goes through `String(value)`, which
      throws (`None`) on an unprintable value. */
  function StringValue(j: Json): (v: Option<Value>)
    ensures v.None? <==> Unprintable(j)
    ensures v.Some? ==> Scalar(v.value)
    ensures j.JStr? || j.JNum? || j.JNull? ==> v == Some(OfJson(j))
    ensures !(j.JStr? || j.JNum? || j.JNull?) ==>
      (v.Some? <==> ToStr(j).Some?) && (v.Some? ==> v.value == VStr(ToStr(j).value))
  {
    ToStrFails(j);
    if j.JStr? || j.JNum? || j.JNull? then Some(OfJson(j))
    else match ToStr(j) case None => None case Some(s) => Some(VStr(s))
  }

  /** An object that owns "toString": `String` throws. */
  lemma StringValueThrowsExample(j: Json)
    requires j == JObj([("toString", JStr("y"))])
    ensures StringValue(j).None?
  {
    assert Keys(j.members) == ["toString"];
  }

  /** A record made by copying flattened fields over flat initial fields
      holds no nested value. */
  lemma FlattenedRecordIsFlat(init: Record, es: Entries<Json>, stringify: Json -> string)
    requires AllFlat(init) && Converts(es, Flattener(stringify))
    ensures AllFlat(TryAssigned(init, es, Flattener(stringify)).value)
  {
    TryAssignedValues(init, es, Flattener(stringify), Flat);
  }

  /** The cell texts of a second-generation record: only strings, numbers and
      `null`. */
  predicate Scalar(v: Value)
  {
    v.VStr? || v.VNum? || v.VNull?
  }

  lemma StringValuedRecordIsScalar(init: Record, es: Entries<Json>)
    requires forall i :: 0 <= i < |init| ==> Scalar(init[i].1)
    requires Converts(es, StringValue)
    ensures forall i :: 0 <= i < |TryAssigned(init, es, StringValue).value| ==>
      Scalar(TryAssigned(init, es, StringValue).value[i].1)
  {
    TryAssignedValues(init, es, StringValue, Scalar);
  }

  /** The first-generation loop throws exactly when an entry holds an array
      that cannot be printed; objects never make it throw. */
  lemma FlattenConverts(es: Entries<Json>, stringify: Json -> string)
    ensures Converts(es, Flattener(stringify)) <==>
      forall i :: 0 <= i < |es| ==> !(es[i].1.JArr? && Unprintable(es[i].1))
  {
  }

  /** The second-generation loop throws exactly when an entry holds an
      unprintable value. */
  lemma StringValueConverts(es: Entries<Json>)
    ensures Converts(es, StringValue) <==> forall i :: 0 <= i < |es| ==> !Unprintable(es[i].1)
  {
  }
}
