/**
 * The deep snapshot matcher `toMatchDeepSnapshot` (src/snapshot.ts).
 *
 * `Match` is the specification: it says, for every received value, property
 * matcher shape and hint, what the matcher ends with (a result or a thrown
 * error), the ordered list of argument lists it hands to the snapshot oracle
 * `toMatchSnapshot`, and what the received value looks like afterwards (the
 * matcher sorts arrays in place when array order is ignored).
 * `MatchPropertiesAgainstObject` is the matcher itself, loops and early
 * returns as in the source, proved to agree with `Match`.
 */
module Snapshot {
  import opened Wrappers
  import opened JsValues
  import Decimal
  import DefaultSort

  /** The `message` closure of a result: the oracle's own, or the matcher's "not expected to match". */
  datatype Message = OracleMessage(text: string) | NotExpectedToMatch

  /** `{pass, message}`. */
  datatype SnapshotResult = SnapshotResult(pass: bool, message: Message)

  /** What the matcher can throw. */
  datatype Error =
    | CannotConvertToObject            // `Object.keys(null)`
    | MissingKey(received: Value, key: string)
    | Raised(message: string)          // thrown by the oracle

  datatype Outcome = Returned(result: SnapshotResult) | Threw(error: Error)

  /**
   * The collaborators the matcher cannot see into: the snapshot oracle,
   * applied to the exact positional argument list it is called with, and the
   * ToString form of a value that the default sort compares.
   */
  datatype Host = Host(toMatchSnapshot: seq<Value> -> Outcome, stringForm: Value -> string)

  /** What one matcher call ends with, the oracle calls it made in order, and the received value afterwards. */
  datatype Run = Run(outcome: Outcome, calls: seq<seq<Value>>, after: Value)

  /**
   * A run over a list of sub-values: the first stopping outcome if any, the
   * oracle calls, and the sub-values as they are afterwards, one per sub-value
   * visited.
   */
  datatype Fold = Fold(stop: Option<Outcome>, calls: seq<seq<Value>>, afters: seq<Value>)

  /** The result the matcher builds itself when every array element passed. */
  const AllPassed: Outcome := Returned(SnapshotResult(true, NotExpectedToMatch))

  /** A thrown error, or a result that does not pass, ends the traversal. */
  predicate Stops(o: Outcome) {
    o.Threw? || !o.result.pass
  }

  /** The hint as an argument: undefined when absent. */
  function HintArg(hint: Option<string>): Value {
    if hint.None? then Undefined else Str(hint.value)
  }

  /** `hint ? `${hint} - ${text}` : text`. */
  function Extend(hint: Option<string>, text: string): string {
    if hint.Some? && hint.value != "" then hint.value + " - " + text else text
  }

  function IndexText(i: nat): string {
    "array index " + Decimal.NatToString(i)
  }

  function PropertyText(key: string): string {
    "property " + key
  }

  /** The elements in the order they are visited: sorted when array order is ignored. */
  function Traversal(h: Host, es: seq<Value>, ignore: bool): (order: seq<Value>)
    ensures multiset(order) == multiset(es)
    ensures !ignore ==> order == es
  {
    if ignore then DefaultSort.SortDefault(h.stringForm, es) else es
  }

  /** The first wanted key that is not present. */
  function FirstMissing(wanted: seq<string>, present: seq<string>): Option<string> {
    if |wanted| == 0 then None
    else if wanted[0] !in present then Some(wanted[0])
    else FirstMissing(wanted[1..], present)
  }

  /** Some wanted key is missing exactly when `FirstMissing` names one, and then it names the first. */
  lemma {:induction false} FirstMissingSpec(wanted: seq<string>, present: seq<string>)
    ensures FirstMissing(wanted, present).None? <==> forall k :: k in wanted ==> k in present
    ensures FirstMissing(wanted, present).Some? ==>
              exists i :: 0 <= i < |wanted| && wanted[i] == FirstMissing(wanted, present).value
                          && wanted[i] !in present && forall j :: 0 <= j < i ==> wanted[j] in present
    decreases |wanted|
  {
    if |wanted| > 0 {
      FirstMissingSpec(wanted[1..], present);
      assert wanted == [wanted[0]] + wanted[1..];
      var r := FirstMissing(wanted, present);
      if wanted[0] in present && r.Some? {
        var i :| 0 <= i < |wanted[1..]| && wanted[1..][i] == r.value && wanted[1..][i] !in present
                  && forall j :: 0 <= j < i ==> wanted[1..][j] in present;
        assert wanted[i + 1] == r.value;
      } else if r.Some? {
        assert wanted[0] == r.value;
      }
    }
  }

  /** A deferred entry: its value is an array and the matchers' entry for its key is truthy. */
  predicate IsDeferred(shape: Value, e: Entry) {
    e.1.Arr? && Truthy(Member(shape, e.0))
  }

  /** The deferred entries of an object, in enumeration order. */
  function DeferredEntries(es: seq<Entry>, shape: Value): (ds: seq<Entry>)
    ensures forall e :: e in ds ==> e in es
  {
    if |es| == 0 then []
    else if IsDeferred(shape, es[0]) then [es[0]] + DeferredEntries(es[1..], shape)
    else DeferredEntries(es[1..], shape)
  }

  /** The deferred entries are exactly the entries whose value is an array and whose matcher entry is truthy. */
  lemma {:induction false} DeferredEntriesMembers(es: seq<Entry>, shape: Value)
    ensures |DeferredEntries(es, shape)| <= |es|
    ensures forall e :: e in DeferredEntries(es, shape) <==> e in es && IsDeferred(shape, e)
    decreases |es|
  {
    if |es| > 0 {
      DeferredEntriesMembers(es[1..], shape);
      assert forall e :: e in es <==> e == es[0] || e in es[1..];
    }
  }

  /** Puts the new values of the deferred entries, in order, back into the object's entries. */
  function Splice(es: seq<Entry>, shape: Value, afters: seq<Value>): (r: seq<Entry>)
    ensures |r| == |es|
  {
    if |es| == 0 then []
    else if IsDeferred(shape, es[0]) && |afters| > 0 then
      [(es[0].0, afters[0])] + Splice(es[1..], shape, afters[1..])
    else [es[0]] + Splice(es[1..], shape, afters)
  }

  /** The number of deferred entries before position `i`: the index of entry `i` among the deferred ones. */
  function DeferredBefore(es: seq<Entry>, shape: Value, i: nat): nat
    requires i <= |es|
  {
    |DeferredEntries(es[..i], shape)|
  }

  /** Counting past the first entry. */
  lemma DeferredBeforeShift(es: seq<Entry>, shape: Value, i: nat)
    requires 0 < i <= |es|
    ensures DeferredBefore(es, shape, i) == (if IsDeferred(shape, es[0]) then 1 else 0) + DeferredBefore(es[1..], shape, i - 1)
  {
    assert es[..i][0] == es[0] && es[..i][1..] == es[1..][..i - 1];
  }

  /**
   * Where the new values go: every key stays in its place, entries that are
   * not deferred are kept, and the `j`-th deferred entry takes `afters[j]`
   * when there is one and is kept otherwise.
   */
  lemma {:induction false} SpliceSpec(es: seq<Entry>, shape: Value, afters: seq<Value>)
    ensures KeysOf(Splice(es, shape, afters)) == KeysOf(es)
    ensures forall i :: 0 <= i < |es| && !IsDeferred(shape, es[i]) ==> Splice(es, shape, afters)[i] == es[i]
    ensures forall i :: 0 <= i < |es| && IsDeferred(shape, es[i]) ==>
              Splice(es, shape, afters)[i]
                == if DeferredBefore(es, shape, i) < |afters| then (es[i].0, afters[DeferredBefore(es, shape, i)]) else es[i]
    decreases |es|
  {
    if |es| > 0 {
      var r := Splice(es, shape, afters);
      var taken := IsDeferred(shape, es[0]) && |afters| > 0;
      var rest := if taken then afters[1..] else afters;
      SpliceSpec(es[1..], shape, rest);
      var r' := Splice(es[1..], shape, rest);
      assert r == [if taken then (es[0].0, afters[0]) else es[0]] + r';
      assert es[..0] == [];
      forall i | 0 < i < |es| {
        DeferredBeforeShift(es, shape, i);
      }
      forall i | 0 <= i < |es| ensures r[i].0 == es[i].0 {
        if i > 0 {
          assert r[i] == r'[i - 1] && es[i] == es[1..][i - 1];
          assert KeysOf(r')[i - 1] == KeysOf(es[1..])[i - 1];
        }
      }
      assert KeysOf(r) == KeysOf(es);
    }
  }

  /** `matchPropertiesAgainstObject(received, ignoreArrayOrder, propertyMatchers, hint)`; an absent shape is `Undefined`. */
  function Match(h: Host, received: Value, ignore: bool, shape: Value, hint: Option<string>): Run
    decreases received, 3
  {
    if shape.Undefined? then
      var args := if hint.None? then [received] else [received, Str(hint.value)];
      Run(h.toMatchSnapshot(args), [args], received)
    else if received.Arr? then
      if |received.elems| == 0 then
        var args := [received, HintArg(hint)];
        Run(h.toMatchSnapshot(args), [args], received)
      else MatchArrayRun(h, received, ignore, shape, hint)
    else if TypeofObject(received) then
      MatchObject(h, received, ignore, shape, hint)
    else
      var args := [received, shape, HintArg(hint)];
      Run(h.toMatchSnapshot(args), [args], received)
  }

  /**
   * The array branch: the elements in traversal order, each against the same
   * matchers; the first that stops decides the outcome, otherwise the matcher
   * passes with its own result. The visited elements are written back over
   * the traversal order.
   */
  function MatchArrayRun(h: Host, received: Value, ignore: bool, shape: Value, hint: Option<string>): Run
    requires received.Arr?
    decreases received, 2
  {
    var order := Traversal(h, received.elems, ignore);
    var f := FoldRuns(ElementRuns(h, received, order, ignore, shape, hint), 0);
    Run(if f.stop.Some? then f.stop.value else AllPassed, f.calls, Arr(f.afters + order[|f.afters|..]))
  }

  /** The arguments of the base snapshot of an object: both sides without the deferred keys, then the hint. */
  function BaseArgs(entries: seq<Entry>, shape: Value, hint: Option<string>): seq<Value>
    requires OwnEntries(shape).Some?
  {
    var deferredKeys := KeysOf(DeferredEntries(entries, shape));
    [Obj(RemoveKeys(entries, deferredKeys)), Obj(RemoveKeys(OwnEntries(shape).value, deferredKeys)), HintArg(hint)]
  }

  /**
   * The object branch (null, dates and plain objects): the key check, the
   * base snapshot, then each deferred entry; the first deferred entry that
   * stops decides the outcome, otherwise the base snapshot's.
   */
  function MatchObject(h: Host, received: Value, ignore: bool, shape: Value, hint: Option<string>): Run
    requires TypeofObject(received) && !received.Arr? && !shape.Undefined?
    decreases received, 2
  {
    if received.Null? || shape.Null? then Run(Threw(CannotConvertToObject), [], received)
    else
      var entries := OwnEntries(received).value;
      var missing := FirstMissing(OwnKeys(shape).value, KeysOf(entries));
      if missing.Some? then Run(Threw(MissingKey(received, missing.value)), [], received)
      else
        var args := BaseArgs(entries, shape, hint);
        var upper := h.toMatchSnapshot(args);
        if Stops(upper) then Run(upper, [args], received)
        else
          var f := FoldRuns(PropertyRuns(h, received, DeferredEntries(entries, shape), ignore, shape, hint), 0);
          Run(if f.stop.Some? then f.stop.value else upper, [args] + f.calls,
              if received.Obj? then Obj(Splice(entries, shape, f.afters)) else received)
  }

  /** The run of the element at position `k` of the traversal: same matchers, hint extended by its index. */
  function ElementRun(h: Host, received: Value, order: seq<Value>, k: nat, ignore: bool, shape: Value,
                      hint: Option<string>): Run
    requires received.Arr? && multiset(order) == multiset(received.elems) && k < |order|
    decreases received, 0
  {
    assert order[k] in multiset(received.elems);
    Match(h, order[k], ignore, shape, Some(Extend(hint, IndexText(k))))
  }

  /** The runs of all elements, in traversal order (only those up to the first that stops are made). */
  function ElementRuns(h: Host, received: Value, order: seq<Value>, ignore: bool, shape: Value,
                       hint: Option<string>): (runs: seq<Run>)
    requires received.Arr? && multiset(order) == multiset(received.elems)
    ensures |runs| == |order|
    ensures forall k :: 0 <= k < |order| ==> runs[k] == ElementRun(h, received, order, k, ignore, shape, hint)
    decreases received, 1
  {
    seq(|order|, k requires 0 <= k < |order| => ElementRun(h, received, order, k, ignore, shape, hint))
  }

  /** The run of deferred entry `k`: its own value against the matchers' entry for its key, hint extended by the key. */
  function PropertyRun(h: Host, received: Value, ds: seq<Entry>, k: nat, ignore: bool, shape: Value,
                       hint: Option<string>): Run
    requires forall e :: e in ds ==> received.Obj? && e in received.props
    requires k < |ds|
    decreases received, 0
  {
    assert ds[k] in ds;
    Match(h, ds[k].1, ignore, Member(shape, ds[k].0), Some(Extend(hint, PropertyText(ds[k].0))))
  }

  /** The runs of all deferred entries, in enumeration order (only those up to the first that stops are made). */
  function PropertyRuns(h: Host, received: Value, ds: seq<Entry>, ignore: bool, shape: Value,
                        hint: Option<string>): (runs: seq<Run>)
    requires forall e :: e in ds ==> received.Obj? && e in received.props
    ensures |runs| == |ds|
    ensures forall k :: 0 <= k < |ds| ==> runs[k] == PropertyRun(h, received, ds, k, ignore, shape, hint)
    decreases received, 1
  {
    seq(|ds|, k requires 0 <= k < |ds| => PropertyRun(h, received, ds, k, ignore, shape, hint))
  }

  /**
   * The fail-fast traversal of a list of runs from position `k`: the runs in
   * order up to and including the first that stops.
   */
  function FoldRuns(runs: seq<Run>, k: nat): (f: Fold)
    requires k <= |runs|
    ensures |f.afters| <= |runs| - k
    decreases |runs| - k
  {
    if k == |runs| then Fold(None, [], [])
    else if Stops(runs[k].outcome) then Fold(Some(runs[k].outcome), runs[k].calls, [runs[k].after])
    else Prefixed(runs[k].calls, [runs[k].after], FoldRuns(runs, k + 1))
  }

  /** `f` with `calls` and `afters` in front of its own. */
  function Prefixed(calls: seq<seq<Value>>, afters: seq<Value>, f: Fold): Fold {
    Fold(f.stop, calls + f.calls, afters + f.afters)
  }

  /** The traversal advanced by one: the state so far absorbs run `k`, and stops there if it stops. */
  lemma FoldAdvance(runs: seq<Run>, k: nat, calls: seq<seq<Value>>, afters: seq<Value>)
    requires k < |runs|
    ensures Prefixed(calls, afters, FoldRuns(runs, k))
         == if Stops(runs[k].outcome) then Fold(Some(runs[k].outcome), calls + runs[k].calls, afters + [runs[k].after])
            else Prefixed(calls + runs[k].calls, afters + [runs[k].after], FoldRuns(runs, k + 1))
  {
    var rest := FoldRuns(runs, k + 1);
    assert calls + (runs[k].calls + rest.calls) == (calls + runs[k].calls) + rest.calls;
    assert afters + ([runs[k].after] + rest.afters) == (afters + [runs[k].after]) + rest.afters;
  }

  /**
   * `matchPropertiesAgainstObject` (src/snapshot.ts:50-138): the matcher as
   * the source runs it, returning what it ends with, the oracle calls it made
   * and the received value after the in-place sorts. The array and object
   * branches are the methods below.
   */
  method MatchPropertiesAgainstObject(h: Host, received: Value, ignore: bool, shape: Value, hint: Option<string>)
    returns (outcome: Outcome, calls: seq<seq<Value>>, after: Value)
    ensures Run(outcome, calls, after) == Match(h, received, ignore, shape, hint)
    decreases received, 3
  {
    if shape.Undefined? {
      var args := if hint.None? then [received] else [received, Str(hint.value)];
      outcome, calls, after := h.toMatchSnapshot(args), [args], received;
    } else if received.Arr? {
      if |received.elems| == 0 {
        // an empty array is snapshotted anyway
        var args := [received, HintArg(hint)];
        outcome, calls, after := h.toMatchSnapshot(args), [args], received;
      } else {
        outcome, calls, after := MatchArray(h, received, ignore, shape, hint);
      }
    } else if TypeofObject(received) {
      outcome, calls, after := MatchProperties(h, received, ignore, shape, hint);
    } else {
      var args := [received, shape, HintArg(hint)];
      outcome, calls, after := h.toMatchSnapshot(args), [args], received;
    }
  }

  /** The array branch (src/snapshot.ts:69-90): every element against the same shape, first failure returned. */
  method MatchArray(h: Host, received: Value, ignore: bool, shape: Value, hint: Option<string>)
    returns (outcome: Outcome, calls: seq<seq<Value>>, after: Value)
    requires received.Arr?
    ensures Run(outcome, calls, after) == MatchArrayRun(h, received, ignore, shape, hint)
    decreases received, 2
  {
    var order := Traversal(h, received.elems, ignore);
    var stop, afters;
    stop, calls, afters := MatchElements(h, received, order, ignore, shape, hint);
    outcome := if stop.Some? then stop.value else AllPassed;
    after := Arr(afters + order[|afters|..]);
  }

  /** The loop over the elements in traversal order (src/snapshot.ts:75-88), first failure returned. */
  method MatchElements(h: Host, received: Value, order: seq<Value>, ignore: bool, shape: Value, hint: Option<string>)
    returns (stop: Option<Outcome>, calls: seq<seq<Value>>, afters: seq<Value>)
    requires received.Arr? && multiset(order) == multiset(received.elems)
    ensures Fold(stop, calls, afters) == FoldRuns(ElementRuns(h, received, order, ignore, shape, hint), 0)
    decreases received, 1
  {
    ghost var runs := ElementRuns(h, received, order, ignore, shape, hint);
    calls, afters := [], [];
    var i := 0;
    while i < |order|
      invariant 0 <= i <= |order| && |afters| == i
      invariant FoldRuns(runs, 0) == Prefixed(calls, afters, FoldRuns(runs, i))
    {
      assert order[i] in multiset(received.elems);
      var o, c, a := MatchPropertiesAgainstObject(h, order[i], ignore, shape, Some(Extend(hint, IndexText(i))));
      assert Run(o, c, a) == runs[i];
      FoldAdvance(runs, i, calls, afters);
      calls := calls + c;
      afters := afters + [a];
      if Stops(o) {
        return Some(o), calls, afters;
      }
      i := i + 1;
    }
    assert calls + [] == calls && afters + [] == afters;
    return None, calls, afters;
  }

  /**
   * The object branch (src/snapshot.ts:91-134): key check, base snapshot
   * without the deferred keys, then each deferred key.
   */
  method MatchProperties(h: Host, received: Value, ignore: bool, shape: Value, hint: Option<string>)
    returns (outcome: Outcome, calls: seq<seq<Value>>, after: Value)
    requires TypeofObject(received) && !received.Arr? && !shape.Undefined?
    ensures Run(outcome, calls, after) == MatchObject(h, received, ignore, shape, hint)
    decreases received, 2
  {
    // Object.keys(received), then Object.keys(propertyMatchers)
    if received.Null? || shape.Null? {
      return Threw(CannotConvertToObject), [], received;
    }
    var entries := OwnEntries(received).value;
    var missing := FindMissingKey(OwnKeys(shape).value, KeysOf(entries));
    if missing.Some? {
      return Threw(MissingKey(received, missing.value)), [], received;
    }

    var deferred := DeferredEntries(entries, shape);
    var args := BaseArgs(entries, shape, hint);
    var upper := h.toMatchSnapshot(args);
    if Stops(upper) {
      return upper, [args], received;
    }
    var stop, deferredCalls, afters := MatchDeferred(h, received, deferred, ignore, shape, hint);
    outcome := if stop.Some? then stop.value else upper;
    calls := [args] + deferredCalls;
    after := if received.Obj? then Obj(Splice(entries, shape, afters)) else received;
  }

  /** The key check (src/snapshot.ts:92-101): the first matcher key the received object lacks. */
  method FindMissingKey(shapeKeys: seq<string>, receivedKeys: seq<string>) returns (missing: Option<string>)
    ensures missing == FirstMissing(shapeKeys, receivedKeys)
  {
    var j := 0;
    while j < |shapeKeys|
      invariant 0 <= j <= |shapeKeys|
      invariant FirstMissing(shapeKeys, receivedKeys) == FirstMissing(shapeKeys[j..], receivedKeys)
    {
      assert shapeKeys[j..][1..] == shapeKeys[j + 1..];
      if shapeKeys[j] !in receivedKeys {
        return Some(shapeKeys[j]);
      }
      j := j + 1;
    }
    assert shapeKeys[j..] == [];
    return None;
  }

  /** The loop over the deferred keys (src/snapshot.ts:120-132), first failure returned. */
  method MatchDeferred(h: Host, received: Value, deferred: seq<Entry>, ignore: bool, shape: Value,
                       hint: Option<string>)
    returns (stop: Option<Outcome>, calls: seq<seq<Value>>, afters: seq<Value>)
    requires forall e :: e in deferred ==> received.Obj? && e in received.props
    ensures Fold(stop, calls, afters) == FoldRuns(PropertyRuns(h, received, deferred, ignore, shape, hint), 0)
    decreases received, 1
  {
    ghost var runs := PropertyRuns(h, received, deferred, ignore, shape, hint);
    calls, afters := [], [];
    var t := 0;
    while t < |deferred|
      invariant 0 <= t <= |deferred| && |afters| == t
      invariant FoldRuns(runs, 0) == Prefixed(calls, afters, FoldRuns(runs, t))
    {
      var key := deferred[t].0;
      assert deferred[t] in deferred;
      var o, c, a := MatchPropertiesAgainstObject(h, deferred[t].1, ignore, Member(shape, key),
                                                  Some(Extend(hint, PropertyText(key))));
      assert Run(o, c, a) == runs[t];
      FoldAdvance(runs, t, calls, afters);
      calls := calls + c;
      afters := afters + [a];
      if Stops(o) {
        return Some(o), calls, afters;
      }
      t := t + 1;
    }
    assert calls + [] == calls && afters + [] == afters;
    return None, calls, afters;
  }

  /**
   * The `toMatchDeepSnapshot` matcher entry (src/snapshot.ts:142-155):
   * `ignoreArrayOrder` defaults to false (`ignoreArrayOrder || false`) and
   * the snapshot name is the initial hint.
   */
  method ToMatchDeepSnapshot(h: Host, received: Value, propertyMatchers: Value, ignoreArrayOrder: Value,
                             snapshotName: Option<string>)
    returns (outcome: Outcome, calls: seq<seq<Value>>, after: Value)
    ensures Run(outcome, calls, after) == Match(h, received, Truthy(ignoreArrayOrder), propertyMatchers, snapshotName)
  {
    outcome, calls, after := MatchPropertiesAgainstObject(h, received, Truthy(ignoreArrayOrder), propertyMatchers, snapshotName);
  }
}
