/**
 * The JavaScript values the helpers inspect: the kind tests (`Array.isArray`,
 * `typeof`), truthiness, own properties, `Object.keys`/`Object.entries`, and
 * the entry filter `removeKeys` (src/snapshot.ts).
 */
module JsValues {
  import opened Wrappers
  import Decimal

  /** One own enumerable string-keyed property: key and value. */
  type Entry = (string, Value)

  /**
   * A JavaScript value. Numbers are integral; an object lists its own
   * enumerable string-keyed properties in enumeration order; a function is
   * known by an identity only.
   */
  datatype Value =
    | Undefined
    | Null
    | Bool(b: bool)
    | Num(n: int)
    | Str(s: string)
    | Sym(description: string)
    | Fn(id: nat)
    | Date(time: int)
    | Arr(elems: seq<Value>)
    | Obj(props: seq<Entry>)

  /** JavaScript truthiness (`!!v`). */
  predicate Truthy(v: Value) {
    match v
    case Undefined => false
    case Null => false
    case Bool(b) => b
    case Num(n) => n != 0
    case Str(s) => s != ""
    case _ => true
  }

  /** `typeof v === "object"`: null, dates, arrays and plain objects. */
  predicate TypeofObject(v: Value) {
    v.Null? || v.Date? || v.Arr? || v.Obj?
  }

  /** The keys of a list of entries, in order. */
  function KeysOf(es: seq<Entry>): seq<string> {
    seq(|es|, j requires 0 <= j < |es| => es[j].0)
  }

  /**
   * `Object.entries(v)`: own enumerable string-keyed properties. `None` stands
   * for the TypeError thrown for null and undefined. Array and string
   * entries are keyed by their indices; other primitives have none.
   */
  function OwnEntries(v: Value): (r: Option<seq<Entry>>)
    ensures r.None? <==> v.Null? || v.Undefined?
  {
    match v
    case Undefined => None
    case Null => None
    case Arr(es) => Some(seq(|es|, j requires 0 <= j < |es| => (Decimal.NatToString(j), es[j])))
    case Str(s) => Some(seq(|s|, j requires 0 <= j < |s| => (Decimal.NatToString(j), Str([s[j]]))))
    case Obj(ps) => Some(ps)
    case _ => Some([])
  }

  /** `Object.keys(v)`; `None` is the TypeError for null and undefined. */
  function OwnKeys(v: Value): (r: Option<seq<string>>)
    ensures r.None? <==> v.Null? || v.Undefined?
  {
    match OwnEntries(v)
    case None => None
    case Some(es) => Some(KeysOf(es))
  }

  /** The value of the first entry with key `k`, if any. */
  function Lookup(es: seq<Entry>, k: string): Option<Value> {
    if |es| == 0 then None
    else if es[0].0 == k then Some(es[0].1)
    else Lookup(es[1..], k)
  }

  /** A key is found exactly when some entry has it, and then the value found is that of an entry with the key. */
  lemma {:induction false} LookupFound(es: seq<Entry>, k: string)
    ensures Lookup(es, k).Some? <==> k in KeysOf(es)
    ensures Lookup(es, k).Some? ==> (k, Lookup(es, k).value) in es
    decreases |es|
  {
    if |es| > 0 {
      assert KeysOf(es) == [es[0].0] + KeysOf(es[1..]);
      LookupFound(es[1..], k);
    }
  }

  /**
   * The own property `k` of `v`, enumerable or not: array elements and
   * `length`, string characters and `length`, and an object's entries.
   */
  function GetOwn(v: Value, k: string): Option<Value> {
    match v
    case Arr(es) =>
      if k == "length" then Some(Num(|es|))
      else
        var i := Decimal.ParseIndex(k);
        if i.Some? && i.value < |es| then Some(es[i.value]) else None
    case Str(s) =>
      if k == "length" then Some(Num(|s|))
      else
        var i := Decimal.ParseIndex(k);
        if i.Some? && i.value < |s| then Some(Str([s[i.value]])) else None
    case Obj(ps) => Lookup(ps, k)
    case _ => None
  }

  /** `v[k]` as far as own properties go: undefined when `v` has no own property `k`. */
  function Member(v: Value, k: string): Value {
    GetOwn(v, k).GetOr(Undefined)
  }

  /**
   * `removeKeys` (src/snapshot.ts): the entries whose key is not listed, in
   * their original order. Object rest patterns (`{a, ...rest}`) select the
   * same entries.
   */
  function RemoveKeys(es: seq<Entry>, keys: seq<string>): seq<Entry> {
    if |es| == 0 then []
    else if es[0].0 in keys then RemoveKeys(es[1..], keys)
    else [es[0]] + RemoveKeys(es[1..], keys)
  }

  /** `removeKeys` keeps exactly the entries whose key is not listed. */
  lemma {:induction false} RemoveKeysMembers(es: seq<Entry>, keys: seq<string>)
    ensures |RemoveKeys(es, keys)| <= |es|
    ensures forall e :: e in RemoveKeys(es, keys) <==> e in es && e.0 !in keys
    decreases |es|
  {
    if |es| > 0 {
      RemoveKeysMembers(es[1..], keys);
      assert forall e :: e in es <==> e == es[0] || e in es[1..];
    }
  }

  /** Removing keys distributes over concatenation, so the kept entries keep their order. */
  lemma {:induction false} RemoveKeysAppend(a: seq<Entry>, b: seq<Entry>, keys: seq<string>)
    ensures RemoveKeys(a + b, keys) == RemoveKeys(a, keys) + RemoveKeys(b, keys)
    decreases |a|
  {
    if |a| > 0 {
      assert (a + b)[0] == a[0] && (a + b)[1..] == a[1..] + b;
      RemoveKeysAppend(a[1..], b, keys);
      if a[0].0 !in keys {
        calc {
          RemoveKeys(a + b, keys);
          [a[0]] + RemoveKeys(a[1..] + b, keys);
          [a[0]] + (RemoveKeys(a[1..], keys) + RemoveKeys(b, keys));
          ([a[0]] + RemoveKeys(a[1..], keys)) + RemoveKeys(b, keys);
        }
      }
    } else {
      assert a + b == b;
    }
  }

  /** Removing no key keeps every entry. */
  lemma {:induction false} RemoveNoKeys(es: seq<Entry>)
    ensures RemoveKeys(es, []) == es
    decreases |es|
  {
    if |es| > 0 {
      RemoveNoKeys(es[1..]);
    }
  }

  /**
   * `o[k] = v` on an object's entries: an existing key keeps its place and
   * takes the new value, a new key goes last (insertion order).
   */
  function Assign(es: seq<Entry>, k: string, v: Value): seq<Entry> {
    if |es| == 0 then [(k, v)]
    else if es[0].0 == k then [(k, v)] + es[1..]
    else [es[0]] + Assign(es[1..], k, v)
  }

  /** After `o[k] = v`, key `k` reads `v` and every other key reads as before. */
  lemma {:induction false} AssignLookup(es: seq<Entry>, k: string, v: Value, k': string)
    ensures Lookup(Assign(es, k, v), k') == if k' == k then Some(v) else Lookup(es, k')
    decreases |es|
  {
    if |es| > 0 && es[0].0 != k {
      AssignLookup(es[1..], k, v, k');
    }
  }

  /** `o[k] = v` keeps the keys in place and appends `k` when it is new. */
  lemma {:induction false} AssignKeys(es: seq<Entry>, k: string, v: Value)
    ensures KeysOf(Assign(es, k, v)) == if k in KeysOf(es) then KeysOf(es) else KeysOf(es) + [k]
    decreases |es|
  {
    if |es| > 0 {
      assert KeysOf(es) == [es[0].0] + KeysOf(es[1..]);
      if es[0].0 != k {
        AssignKeys(es[1..], k, v);
        assert KeysOf(Assign(es, k, v)) == [es[0].0] + KeysOf(Assign(es[1..], k, v));
        if k !in KeysOf(es[1..]) {
          assert [es[0].0] + (KeysOf(es[1..]) + [k]) == ([es[0].0] + KeysOf(es[1..])) + [k];
        }
      } else {
        assert KeysOf(Assign(es, k, v)) == [k] + KeysOf(es[1..]);
      }
    } else {
      assert KeysOf([(k, v)]) == [k];
    }
  }

  /** Object spread `{...base, ...extra}` on entries: each entry of `extra` assigned in turn. */
  function SpreadInto(base: seq<Entry>, extra: seq<Entry>): seq<Entry>
    decreases |extra|
  {
    if |extra| == 0 then base
    else SpreadInto(Assign(base, extra[0].0, extra[0].1), extra[1..])
  }

  /** The value of the last entry with key `k`, if any: the one a spread leaves in place. */
  function LastLookup(es: seq<Entry>, k: string): (r: Option<Value>)
    ensures r.Some? <==> k in KeysOf(es)
    decreases |es|
  {
    if |es| == 0 then None
    else
      assert KeysOf(es) == [es[0].0] + KeysOf(es[1..]);
      var later := LastLookup(es[1..], k);
      if later.Some? then later
      else if es[0].0 == k then Some(es[0].1)
      else None
  }

  /** After a spread, a key reads its last value in `extra` if it has one there, and its value in `base` otherwise. */
  lemma {:induction false} SpreadLookup(base: seq<Entry>, extra: seq<Entry>, k: string)
    ensures Lookup(SpreadInto(base, extra), k) == if LastLookup(extra, k).Some? then LastLookup(extra, k) else Lookup(base, k)
    decreases |extra|
  {
    if |extra| > 0 {
      SpreadLookup(Assign(base, extra[0].0, extra[0].1), extra[1..], k);
      AssignLookup(base, extra[0].0, extra[0].1, k);
    }
  }

  /** A spread keeps the keys of `base` in front, in their order. */
  lemma {:induction false} SpreadKeysPrefix(base: seq<Entry>, extra: seq<Entry>)
    ensures |KeysOf(base)| <= |KeysOf(SpreadInto(base, extra))|
    ensures KeysOf(SpreadInto(base, extra))[..|base|] == KeysOf(base)
    decreases |extra|
  {
    if |extra| > 0 {
      var next := Assign(base, extra[0].0, extra[0].1);
      AssignKeys(base, extra[0].0, extra[0].1);
      SpreadKeysPrefix(next, extra[1..]);
      assert KeysOf(next)[..|base|] == KeysOf(base);
    }
  }
}
