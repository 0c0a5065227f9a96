/**
 * The deep mock of src/mock.ts: `mockObject(o)` wraps `o` in a proxy whose
 * `get` trap answers reserved keys with `undefined`, throws on keys the
 * target does not own, and wraps every own non-null object value in a proxy
 * with the same trap, so that nested reads obey the same rules.
 *
 * The proxy is modelled by the target it wraps; only the `get` decision is
 * modelled. Targets have no symbol-keyed own properties in this model.
 */
module Mock {
  import opened Wrappers
  import opened JsValues

  /** The symbols the trap tests for, and any other symbol by its description. */
  datatype SymbolKey =
    | InspectCustom
    | ToStringTag
    | Iterator
    | AsyncIterator
    | OtherSymbol(description: string)

  /** A property key: a string or a symbol. */
  datatype PropertyKey = Text(s: string) | Symbol(sym: SymbolKey)

  /** The string keys that always read as undefined. */
  const ReservedNames: seq<string> := ["asymmetricMatch", "constructor", "inspect", "nodeType", "toJSON", "$$typeof"]

  /** Every string key with this prefix reads as undefined. */
  const ImmutablePrefix: string := "@@__IMMUTABLE_"

  /** The keys the trap answers with undefined whatever the target holds (src/mock.ts:13-27). */
  predicate IsReserved(key: PropertyKey) {
    match key
    case Text(s) => s in ReservedNames || ImmutablePrefix <= s
    case Symbol(sym) => !sym.OtherSymbol?
  }

  /** `typeof v === "object" && v !== null`: the values the trap wraps. */
  predicate IsObject(v: Value) {
    TypeofObject(v) && !v.Null?
  }

  /** `target.hasOwnProperty(key)` and the own value: targets own no symbol-keyed property here. */
  function OwnValue(target: Value, key: PropertyKey): Option<Value> {
    match key
    case Text(s) => GetOwn(target, s)
    case Symbol(_) => None
  }

  /** A proxy made by `mockObject`, known by the object it wraps. */
  datatype Mock = Mock(target: Value)

  /** What a read through the proxy gives: a plain value, a further proxy, or the error thrown for `key`. */
  datatype Read = Plain(v: Value) | Wrapped(m: Mock) | Thrown(key: PropertyKey)

  /** The value an own property is handed out as: objects inside a new proxy, anything else as is. */
  function Wrap(v: Value): (r: Read)
    ensures r.Wrapped? <==> IsObject(v)
    ensures r.Wrapped? ==> r.m.target == v
    ensures r.Plain? ==> r.v == v
  {
    if IsObject(v) then Wrapped(Mock(v)) else Plain(v)
  }

  /**
   * The `get` trap (src/mock.ts:12-41). A proxy never hands out an object
   * unwrapped, and every proxy it hands out wraps an object.
   */
  function Get(m: Mock, key: PropertyKey): (r: Read)
    ensures r.Plain? ==> r.v.Undefined? || !IsObject(r.v)
    ensures r.Wrapped? ==> IsObject(r.m.target)
    ensures r.Thrown? ==> r.key == key
  {
    if IsReserved(key) then Plain(Undefined)
    else match OwnValue(m.target, key)
      case None => Thrown(key)
      case Some(v) => Wrap(v)
  }

  /** `mockObject(o)` (src/mock.ts:44-45): a proxy over `o` itself. */
  function MockObject(o: Value): (m: Mock)
    requires IsObject(o)
    ensures forall key :: OwnValue(o, key).Some? && !IsReserved(key) ==> Get(m, key) == Wrap(OwnValue(o, key).value)
    ensures forall key :: OwnValue(o, key).None? && !IsReserved(key) ==> Get(m, key) == Thrown(key)
  {
    Mock(o)
  }

  /** `mockFrom(_, o)` (src/mock.ts:47-48): the first argument is ignored. */
  function MockFrom(ignored: Value, o: Value): (m: Mock)
    requires IsObject(o)
    ensures m == MockObject(o)
  {
    MockObject(o)
  }

  /**
   * Reading `m[k0][k1]...` through the proxies. An error ends the chain,
   * and `None` stands for going on to read a key of a plain value, which
   * leaves the mock.
   */
  function ReadPath(m: Mock, path: seq<PropertyKey>): (r: Option<Read>)
    ensures r.Some? && r.value.Plain? ==> r.value.v.Undefined? || !IsObject(r.value.v)
    ensures r.Some? && r.value.Wrapped? ==> |path| == 0 || IsObject(r.value.m.target)
    ensures r.Some? && r.value.Thrown? ==> r.value.key in path
    decreases |path|
  {
    if |path| == 0 then Some(Wrapped(m))
    else match Get(m, path[0])
      case Wrapped(inner) => ReadPath(inner, path[1..])
      case Thrown(k) => Some(Thrown(k))
      case Plain(v) => if |path| == 1 then Some(Plain(v)) else None
  }

  /** The plain nested lookup `o[k0][k1]...` over own properties, `None` at the first missing key. */
  function Deep(v: Value, path: seq<string>): Option<Value>
    decreases |path|
  {
    if |path| == 0 then Some(v)
    else match GetOwn(v, path[0])
      case None => None
      case Some(w) => Deep(w, path[1..])
  }

  /** A path of string keys as property keys. */
  function Texts(path: seq<string>): (keys: seq<PropertyKey>)
    ensures |keys| == |path| && forall i :: 0 <= i < |path| ==> keys[i] == Text(path[i])
  {
    seq(|path|, i requires 0 <= i < |path| => Text(path[i]))
  }

  /** A reserved key reads as undefined even when the target owns it. */
  lemma ReservedUndefined(o: Value, key: PropertyKey)
    requires IsReserved(key)
    ensures Get(Mock(o), key) == Plain(Undefined)
    ensures ReadPath(Mock(o), [key]) == Some(Plain(Undefined))
  {
  }

  /** Every listed name and every `@@__IMMUTABLE_` key, and the four symbols, are reserved; no other symbol is. */
  lemma ReservedKeys(s: string, description: string)
    ensures IsReserved(Text(s)) <==> s in ReservedNames || (|s| >= 14 && s[..14] == "@@__IMMUTABLE_")
    ensures IsReserved(Symbol(InspectCustom)) && IsReserved(Symbol(ToStringTag))
    ensures IsReserved(Symbol(Iterator)) && IsReserved(Symbol(AsyncIterator))
    ensures !IsReserved(Symbol(OtherSymbol(description)))
  {
    assert |ImmutablePrefix| == 14;
  }

  /**
   * Nested reads follow the plain object: when every key on the path is an
   * own, unreserved key and every value passed on the way is an object,
   * the read gives the value found there, wrapped when it is an object.
   */
  lemma {:induction false} DeepRead(o: Value, path: seq<string>)
    requires |path| > 0
    requires forall i :: 0 <= i < |path| ==> !IsReserved(Text(path[i]))
    requires forall i :: 0 <= i < |path| ==> Deep(o, path[..i]).Some? && IsObject(Deep(o, path[..i]).value)
    requires Deep(o, path).Some?
    ensures ReadPath(Mock(o), Texts(path)) == Some(Wrap(Deep(o, path).value))
    decreases |path|
  {
    assert path[..0] == [];
    assert path[..1][0] == path[0] && path[..1][1..] == [];
    assert GetOwn(o, path[0]).Some?;
    var w := GetOwn(o, path[0]).value;
    assert Get(Mock(o), Text(path[0])) == Wrap(w);
    assert Texts(path)[1..] == Texts(path[1..]);
    if |path| == 1 {
      assert path[1..] == [];
    } else {
      forall i | 0 <= i < |path[1..]|
        ensures Deep(w, path[1..][..i]) == Deep(o, path[..i + 1])
      {
        assert path[..i + 1][0] == path[0] && path[..i + 1][1..] == path[1..][..i];
      }
      assert IsObject(w) by {
        assert Deep(o, path[..1]) == Deep(w, []);
      }
      DeepRead(w, path[1..]);
    }
  }

  /**
   * A read that reaches an object without key `path[i]` throws for that
   * key, and the keys after it are never read.
   */
  lemma {:induction false} DeepMissing(o: Value, path: seq<string>, i: nat)
    requires i < |path|
    requires forall j :: 0 <= j <= i ==> !IsReserved(Text(path[j]))
    requires forall j :: 0 <= j <= i ==> Deep(o, path[..j]).Some? && IsObject(Deep(o, path[..j]).value)
    requires Deep(o, path[..i + 1]).None?
    ensures ReadPath(Mock(o), Texts(path)) == Some(Thrown(Text(path[i])))
    decreases i
  {
    assert path[..0] == [];
    assert Texts(path)[1..] == Texts(path[1..]);
    if i == 0 {
      assert path[..1][1..] == [];
      assert GetOwn(o, path[0]).None?;
    } else {
      assert path[..1][0] == path[0] && path[..1][1..] == [];
      assert Deep(o, path[..1]).Some?;
      assert GetOwn(o, path[0]).Some?;
      var w := GetOwn(o, path[0]).value;
      forall j | 0 <= j <= i
        ensures Deep(w, path[1..][..j]) == Deep(o, path[..j + 1])
      {
        assert path[..j + 1][0] == path[0] && path[..j + 1][1..] == path[1..][..j];
      }
      assert IsObject(w) by {
        assert Deep(o, path[..1]) == Deep(w, []);
      }
      DeepMissing(w, path[1..], i - 1);
    }
  }
}
