/**
 * The property-test wiring of the Jest wrapper (src/jest.ts): the seed hash
 * `hashCode`, the assertion options `options`, the argument split `reorder`
 * of `it.prop`, and the option resolution of `patchProp`.
 *
 * Strings are the UTF-16 code units `charCodeAt` reads. JavaScript runs
 * `^` on 32-bit two's-complement integers and the product `hash * 33` of
 * such an integer stays below 2^53, so 32-bit bit-vector arithmetic is exact
 * here; `>>> 0` is the unsigned reading of the final 32 bits.
 */
module Jest {
  import opened Wrappers
  import opened JsValues

  /** The starting value of the hash. */
  const HashSeed: bv32 := 5381

  /** One step of the loop: `(hash * 33) ^ code`, in 32 bits. */
  function Step(hash: bv32, code: bv16): bv32 {
    (hash * 33) ^ (code as bv32)
  }

  /**
   * The hash of `s` started from `hash`: the code units are folded in from
   * the last to the first.
   */
  function HashFrom(hash: bv32, s: seq<bv16>): bv32 {
    if |s| == 0 then hash else Step(HashFrom(hash, s[1..]), s[0])
  }

  /** The djb2-style hash `hashCode` computes, as a 32-bit pattern. */
  function Hash(s: seq<bv16>): bv32 {
    HashFrom(HashSeed, s)
  }

  /**
   * `hashCode` (src/jest.ts:6-18): the loop from the last code unit down,
   * then the unsigned reading of the 32 bits.
   */
  method HashCode(str: seq<bv16>) returns (r: nat)
    ensures r == Hash(str) as nat
    ensures r < 0x1_0000_0000
    ensures |str| == 0 ==> r == 5381
  {
    var hash: bv32 := 5381;
    var i := |str|;
    while i != 0
      invariant 0 <= i <= |str|
      invariant hash == HashFrom(HashSeed, str[i..])
    {
      i := i - 1;
      assert str[i..][1..] == str[i + 1..];
      hash := Step(hash, str[i]);
    }
    r := hash as nat;
  }

  /**
   * Hashing a concatenation: the tail is hashed first, and its hash is the
   * starting value for the head.
   */
  lemma {:induction false} HashConcat(hash: bv32, s: seq<bv16>, t: seq<bv16>)
    ensures HashFrom(hash, s + t) == HashFrom(HashFrom(hash, t), s)
    decreases |s|
  {
    if |s| == 0 {
      assert s + t == t;
    } else {
      assert (s + t)[1..] == s[1..] + t;
      HashConcat(hash, s[1..], t);
    }
  }

  /** The last code unit is the first one folded in. */
  lemma LastUnitFirst(s: seq<bv16>, c: bv16)
    ensures Hash(s + [c]) == HashFrom(Step(HashSeed, c), s)
  {
    HashConcat(HashSeed, s, [c]);
    assert HashFrom(HashSeed, [c]) == Step(HashFrom(HashSeed, []), c);
  }

  /** The own enumerable entries object spread copies: none from null and undefined. */
  function SpreadEntries(v: Value): seq<Entry> {
    match OwnEntries(v)
    case None => []
    case Some(es) => es
  }

  /** The options `options` uses: the supplied ones, or `{numRuns: 25}` when the argument is undefined. */
  function SuppliedOptions(supplied: Value): Value {
    if supplied.Undefined? then Obj([("numRuns", Num(25))]) else supplied
  }

  /**
   * `options(spec, supplied)` (src/jest.ts:24-27): `{seed, ...supplied}`,
   * where `seed` is `hashCode` of the spec's full name.
   */
  function Options(seed: nat, supplied: Value): Value {
    Obj(SpreadInto([("seed", Num(seed))], SpreadEntries(SuppliedOptions(supplied))))
  }

  /** `options(spec, supplied)` for a spec with full name `fullName`: the seed is its hash. */
  method OptionsOf(fullName: seq<bv16>, supplied: Value) returns (o: Value)
    ensures o.Obj? && Member(o, "seed") == LastLookup(SpreadEntries(SuppliedOptions(supplied)), "seed").GetOr(Num(Hash(fullName) as int))
  {
    var seed := HashCode(fullName);
    o := Options(seed, supplied);
    OptionsMember(seed, supplied, "seed");
  }

  /**
   * The options read back: `seed` is the hash of the full name unless the
   * supplied options carry one, every other key is the supplied value, and
   * `seed` is the first key.
   */
  lemma OptionsMember(seed: nat, supplied: Value, k: string)
    ensures var given := SpreadEntries(SuppliedOptions(supplied));
            Member(Options(seed, supplied), k)
              == LastLookup(given, k).GetOr(if k == "seed" then Num(seed) else Undefined)
    ensures |Options(seed, supplied).props| >= 1 && KeysOf(Options(seed, supplied).props)[0] == "seed"
  {
    var given := SpreadEntries(SuppliedOptions(supplied));
    var base := [("seed", Num(seed))];
    SpreadLookup(base, given, k);
    SpreadKeysPrefix(base, given);
    assert KeysOf(base) == ["seed"];
  }

  /** Without supplied options the seed is the hash and 25 runs are made. */
  lemma OptionsDefault(seed: nat)
    ensures Options(seed, Undefined) == Obj([("seed", Num(seed)), ("numRuns", Num(25))])
  {
    var first := ("seed", Num(seed));
    var runs := ("numRuns", Num(25));
    assert SpreadEntries(SuppliedOptions(Undefined)) == [runs];
    assert Assign([first], "numRuns", Num(25)) == [first] + Assign([], "numRuns", Num(25)) == [first, runs];
    assert SpreadInto([first], [runs]) == SpreadInto([first, runs], []);
  }

  /** The split of the arguments after the test name: arbitraries, callback and options. */
  datatype Arranged =
    | Arranged(arbitraries: seq<Value>, callback: Value, options: Value)
    | MustBeCallback   // `throw new Error("must be callback")`

  /**
   * `reorder`'s argument split (src/jest.ts:160-172): the arguments are popped
   * from the end (`pop` of an empty array gives undefined). A trailing
   * function is the callback and the options are `{}`; otherwise the last
   * argument is the options and the one before must be the callback.
   */
  method Reorder(args: seq<Value>) returns (r: Arranged)
    ensures r.Arranged? <==> (|args| >= 1 && args[|args| - 1].Fn?) || (|args| >= 2 && args[|args| - 2].Fn?)
    ensures r.Arranged? ==> r.callback.Fn? && !r.options.Fn?
    ensures r.Arranged? ==>
              (args == r.arbitraries + [r.callback] && r.options == Obj([]))
              || args == r.arbitraries + [r.callback, r.options]
  {
    var stack := args;
    var last := Undefined;
    if |stack| > 0 {
      last, stack := stack[|stack| - 1], stack[..|stack| - 1];
    }
    if last.Fn? {
      return Arranged(stack, last, Obj([]));
    }
    var callback := Undefined;
    if |stack| > 0 {
      callback, stack := stack[|stack| - 1], stack[..|stack| - 1];
    }
    if !callback.Fn? {
      return MustBeCallback;
    }
    assert args == stack + [callback, last];
    return Arranged(stack, callback, last);
  }

  /** Runs of an integration test. */
  const IntegrationNumRuns := 5

  /** Timeout of an integration test, in milliseconds. */
  const IntegrationTimeout := 50000

  /** The option keys `patchProp` takes for itself; the rest goes to the assertion. */
  const OwnOptionKeys: seq<string> := ["integration", "isolate", "timeout"]

  /** What `patchProp` sets up: the options given to the assertion, the test timeout, and whether modules are reset. */
  datatype PropSetup = PropSetup(assertOptions: Value, testTimeout: Value, isolate: bool)

  /** The option resolution, or the TypeError of destructuring null. */
  datatype Resolution = Resolved(setup: PropSetup) | DestructuredNull

  /** A destructuring default: it applies when the property reads undefined. */
  function WithDefault(v: Value, default: Value): Value {
    if v.Undefined? then default else v
  }

  /** `integration || isIntegrationTestModule()`, as a condition; `integration` defaults to false. */
  function IsIntegration(options: Value, integrationModule: bool): bool {
    Truthy(WithDefault(Member(options, "integration"), Bool(false))) || integrationModule
  }

  /** `isIntegration ? INTEGRATION_TEST_NUM_RUNS : undefined`. */
  function NumRuns(isIntegration: bool): Value {
    if isIntegration then Num(IntegrationNumRuns) else Undefined
  }

  /** `optionsTimeout || (isIntegration ? 50000 : undefined)`. */
  function Timeout(options: Value, isIntegration: bool): Value {
    var optionsTimeout := Member(options, "timeout");
    if Truthy(optionsTimeout) then optionsTimeout
    else if isIntegration then Num(IntegrationTimeout) else Undefined
  }

  /** `...assertOptions`: the supplied entries other than the three `patchProp` takes. */
  function AssertRest(options: Value): seq<Entry> {
    RemoveKeys(SpreadEntries(options), OwnOptionKeys)
  }

  /**
   * The option resolution of `patchProp` (src/jest.ts:181-212). `seed` is
   * `hashCode` of the spec's full name, `supplied`
   * is the options argument after `reorder` (undefined means the default
   * `{}`), and `integrationModule` what `isIntegrationTestModule()` answers.
   * The assertion gets `{...options(spec, {numRuns}), timeout, ...assertOptions}`.
   */
  function ResolveProp(seed: nat, supplied: Value, integrationModule: bool): Resolution {
    var options := WithDefault(supplied, Obj([]));
    if options.Null? then DestructuredNull
    else
      var isIntegration := IsIntegration(options, integrationModule);
      var timeout := Timeout(options, isIntegration);
      var derived := Options(seed, Obj([("numRuns", NumRuns(isIntegration))])).props;
      var assertOptions := SpreadInto(Assign(SpreadInto([], derived), "timeout", timeout), AssertRest(options));
      Resolved(PropSetup(Obj(assertOptions), timeout, Truthy(WithDefault(Member(options, "isolate"), Bool(true)))))
  }

  /** What the derived options before the caller's rest are: seed, runs and timeout, in that order. */
  lemma DerivedOptions(seed: nat, numRuns: Value, timeout: Value)
    ensures SpreadInto([], Options(seed, Obj([("numRuns", numRuns)])).props)
         == [("seed", Num(seed)), ("numRuns", numRuns)]
    ensures Assign(SpreadInto([], Options(seed, Obj([("numRuns", numRuns)])).props), "timeout", timeout)
         == [("seed", Num(seed)), ("numRuns", numRuns), ("timeout", timeout)]
  {
    var first := ("seed", Num(seed));
    var runs := ("numRuns", numRuns);
    assert SpreadEntries(Obj([runs])) == [runs];
    assert Assign([first], "numRuns", numRuns) == [first] + Assign([], "numRuns", numRuns) == [first, runs];
    assert SpreadInto([first], [runs]) == SpreadInto([first, runs], []) == [first, runs];
    assert Options(seed, Obj([runs])).props == [first, runs];
    assert [first, runs][1..] == [runs];
    assert SpreadInto([], [first, runs]) == SpreadInto([first], [runs]);
    assert Assign([first, runs], "timeout", timeout) == [first] + Assign([runs], "timeout", timeout);
    assert Assign([runs], "timeout", timeout) == [runs] + Assign([], "timeout", timeout);
  }

  /** The entries the assertion options start with. */
  function Lead(seed: nat, numRuns: Value, timeout: Value): seq<Entry> {
    [("seed", Num(seed)), ("numRuns", numRuns), ("timeout", timeout)]
  }

  /** Reading the leading entries. */
  lemma LeadLookup(seed: nat, numRuns: Value, timeout: Value, k: string)
    ensures Lookup(Lead(seed, numRuns, timeout), k)
         == if k == "seed" then Some(Num(seed))
            else if k == "numRuns" then Some(numRuns)
            else if k == "timeout" then Some(timeout)
            else None
    ensures KeysOf(Lead(seed, numRuns, timeout)) == ["seed", "numRuns", "timeout"]
  {
    var l := Lead(seed, numRuns, timeout);
    var l1: seq<Entry> := [("numRuns", numRuns), ("timeout", timeout)];
    var l2: seq<Entry> := [("timeout", timeout)];
    assert l[1..] == l1 && l1[1..] == l2 && l2[1..] == [];
    assert Lookup(l2, k) == if k == "timeout" then Some(timeout) else None;
    assert Lookup(l1, k) == if k == "numRuns" then Some(numRuns) else Lookup(l2, k);
    assert Lookup(l, k) == if k == "seed" then Some(Num(seed)) else Lookup(l1, k);
  }

  /** The resolved assertion options are the leading entries with the caller's rest spread over them. */
  lemma ResolvedShape(seed: nat, supplied: Value, integrationModule: bool)
    requires !supplied.Null?
    ensures var options := WithDefault(supplied, Obj([]));
            var isIntegration := IsIntegration(options, integrationModule);
            var s := ResolveProp(seed, supplied, integrationModule);
            && s.Resolved?
            && s.setup.assertOptions == Obj(SpreadInto(Lead(seed, NumRuns(isIntegration), Timeout(options, isIntegration)), AssertRest(options)))
            && s.setup.testTimeout == Timeout(options, isIntegration)
  {
    var options := WithDefault(supplied, Obj([]));
    var isIntegration := IsIntegration(options, integrationModule);
    DerivedOptions(seed, NumRuns(isIntegration), Timeout(options, isIntegration));
  }

  /**
   * The assertion options read back: the seed is the hash of the full name
   * and `numRuns` is 5 for an integration test and undefined otherwise, each
   * unless the caller supplies it; the timeout is always the resolved one,
   * which is also the test's; any other key is the caller's. Seed, runs and
   * timeout lead the keys in that order.
   */
  lemma ResolvedMember(seed: nat, supplied: Value, integrationModule: bool, k: string)
    requires !supplied.Null?
    ensures var options := WithDefault(supplied, Obj([]));
            var isIntegration := IsIntegration(options, integrationModule);
            var s := ResolveProp(seed, supplied, integrationModule).setup;
            var derived := if k == "seed" then Num(seed)
                           else if k == "numRuns" then NumRuns(isIntegration)
                           else if k == "timeout" then Timeout(options, isIntegration)
                           else Undefined;
            && Member(s.assertOptions, k) == LastLookup(AssertRest(options), k).GetOr(derived)
            && Member(s.assertOptions, "timeout") == s.testTimeout
            && |s.assertOptions.props| >= 3
            && KeysOf(s.assertOptions.props)[..3] == ["seed", "numRuns", "timeout"]
  {
    var options := WithDefault(supplied, Obj([]));
    var isIntegration := IsIntegration(options, integrationModule);
    var timeout := Timeout(options, isIntegration);
    var rest := AssertRest(options);
    var lead := Lead(seed, NumRuns(isIntegration), timeout);
    ResolvedShape(seed, supplied, integrationModule);
    LeadLookup(seed, NumRuns(isIntegration), timeout, k);
    LeadLookup(seed, NumRuns(isIntegration), timeout, "timeout");
    SpreadLookup(lead, rest, k);
    SpreadLookup(lead, rest, "timeout");
    SpreadKeysPrefix(lead, rest);
    RemoveKeysMembers(SpreadEntries(options), OwnOptionKeys);
    LastLookupKey(rest, "timeout");
  }

  /**
   * The resolution for a spec with full name `fullName`: the seed the
   * assertion gets is the hash of the name unless the caller supplies one.
   */
  method ResolvePropOf(fullName: seq<bv16>, supplied: Value, integrationModule: bool) returns (r: Resolution)
    ensures r.Resolved? <==> !supplied.Null?
    ensures r.Resolved? ==>
              Member(r.setup.assertOptions, "seed")
                == LastLookup(AssertRest(WithDefault(supplied, Obj([]))), "seed").GetOr(Num(Hash(fullName) as int))
  {
    var seed := HashCode(fullName);
    r := ResolveProp(seed, supplied, integrationModule);
    if !supplied.Null? {
      ResolvedMember(seed, supplied, integrationModule, "seed");
    }
  }

  /** A key that no entry has has no last value. */
  lemma LastLookupKey(es: seq<Entry>, k: string)
    requires forall e :: e in es ==> e.0 != k
    ensures LastLookup(es, k).None?
  {
    forall j | 0 <= j < |es| ensures KeysOf(es)[j] != k {
      assert es[j] in es;
    }
  }

  /**
   * The defaults: without options outside an integration module, no run
   * count and no timeout are imposed and modules are reset before each run;
   * options of null throw.
   */
  lemma ResolveDefaults(seed: nat)
    ensures ResolveProp(seed, Undefined, false)
         == Resolved(PropSetup(Obj([("seed", Num(seed)), ("numRuns", Undefined), ("timeout", Undefined)]),
                               Undefined, true))
    ensures ResolveProp(seed, Null, false) == DestructuredNull
  {
    DerivedOptions(seed, Undefined, Undefined);
    assert AssertRest(Obj([])) == [];
  }

  /**
   * An integration test, flagged by its module or by `integration: true`,
   * makes 5 runs with a 50000 ms timeout for the test and the assertion
   * unless the caller says otherwise.
   */
  lemma IntegrationDefaults(seed: nat, integrationModule: bool)
    ensures var supplied := if integrationModule then Undefined else Obj([("integration", Bool(true))]);
            var s := ResolveProp(seed, supplied, integrationModule);
            && s.Resolved?
            && s.setup.testTimeout == Num(IntegrationTimeout)
            && Member(s.setup.assertOptions, "numRuns") == Num(IntegrationNumRuns)
            && Member(s.setup.assertOptions, "timeout") == Num(IntegrationTimeout)
            && Member(s.setup.assertOptions, "integration") == Undefined
            && s.setup.isolate
  {
    var supplied := if integrationModule then Undefined else Obj([("integration", Bool(true))]);
    var options := WithDefault(supplied, Obj([]));
    assert AssertRest(options) == [];
    ResolvedMember(seed, supplied, integrationModule, "numRuns");
    ResolvedMember(seed, supplied, integrationModule, "integration");
  }
}
