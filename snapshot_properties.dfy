/**
 * What the deep snapshot matcher promises, stated about its specification
 * `Snapshot.Match`: the no-shape and empty-array cases, per-element and
 * per-key recursion with their hints, fail-fast traversal, the missing-key
 * abort, the base snapshot of an object, and the in-place sort.
 */
module SnapshotProperties {
  import opened Wrappers
  import opened JsValues
  import Decimal
  import DefaultSort
  import opened Snapshot

  /** With array order ignored, the elements are visited as a sorted rearrangement of the array. */
  lemma TraversalSortedPermutation(h: Host, es: seq<Value>)
    ensures multiset(Traversal(h, es, true)) == multiset(es)
    ensures DefaultSort.Sorted(h.stringForm, Traversal(h, es, true))
  {
  }

  /** With no property matchers the received value goes to the oracle alone, with the hint only when there is one. */
  lemma NoShapePassthrough(h: Host, received: Value, ignore: bool, hint: Option<string>)
    ensures var args := if hint.None? then [received] else [received, Str(hint.value)];
            Match(h, received, ignore, Undefined, hint) == Run(h.toMatchSnapshot(args), [args], received)
  {
  }

  /** An empty array is snapshotted whole, with its hint, whatever the matchers are. */
  lemma EmptyArraySnapshotted(h: Host, ignore: bool, shape: Value, hint: Option<string>)
    requires !shape.Undefined?
    ensures Match(h, Arr([]), ignore, shape, hint)
         == Run(h.toMatchSnapshot([Arr([]), HintArg(hint)]), [[Arr([]), HintArg(hint)]], Arr([]))
  {
  }

  /** A value that is neither an array nor of type "object" is snapshotted with the matchers and the hint. */
  lemma PrimitiveSnapshotted(h: Host, received: Value, ignore: bool, shape: Value, hint: Option<string>)
    requires !shape.Undefined? && !TypeofObject(received)
    ensures Match(h, received, ignore, shape, hint)
         == Run(h.toMatchSnapshot([received, shape, HintArg(hint)]), [[received, shape, HintArg(hint)]], received)
  {
  }

  // ---------------------------------------------------------------------------------------------
  // The fail-fast traversal

  /** The oracle calls of runs `k` up to `n`, in order. */
  function CallsOf(runs: seq<Run>, k: nat, n: nat): seq<seq<Value>>
    requires k <= n <= |runs|
    decreases n - k
  {
    if k == n then [] else runs[k].calls + CallsOf(runs, k + 1, n)
  }

  /** The values afterwards of runs `k` up to `n`, in order. */
  function AftersOf(runs: seq<Run>, k: nat, n: nat): (vs: seq<Value>)
    requires k <= n <= |runs|
    ensures |vs| == n - k && forall j :: 0 <= j < n - k ==> vs[j] == runs[k + j].after
  {
    seq(n - k, j requires 0 <= j < n - k => runs[k + j].after)
  }

  /**
   * When run `i` is the first from `k` on that stops, the traversal ends with
   * its outcome, after exactly the calls of runs `k..i`; none later is made.
   */
  lemma {:induction false} FoldFailFast(runs: seq<Run>, k: nat, i: nat)
    requires k <= i < |runs|
    requires forall j :: k <= j < i ==> !Stops(runs[j].outcome)
    requires Stops(runs[i].outcome)
    ensures FoldRuns(runs, k) == Fold(Some(runs[i].outcome), CallsOf(runs, k, i + 1), AftersOf(runs, k, i + 1))
    decreases i - k
  {
    if k < i {
      FoldFailFast(runs, k + 1, i);
      assert AftersOf(runs, k, i + 1) == [runs[k].after] + AftersOf(runs, k + 1, i + 1);
    } else {
      assert CallsOf(runs, k + 1, i + 1) == [];
      assert runs[k].calls + [] == runs[k].calls;
    }
  }

  /** When no run from `k` on stops, the traversal makes all of them and stops nowhere. */
  lemma {:induction false} FoldAllPass(runs: seq<Run>, k: nat)
    requires k <= |runs|
    requires forall j :: k <= j < |runs| ==> !Stops(runs[j].outcome)
    ensures FoldRuns(runs, k) == Fold(None, CallsOf(runs, k, |runs|), AftersOf(runs, k, |runs|))
    decreases |runs| - k
  {
    if k < |runs| {
      FoldAllPass(runs, k + 1);
      assert AftersOf(runs, k, |runs|) == [runs[k].after] + AftersOf(runs, k + 1, |runs|);
    }
  }

  /** Whatever stops, the values afterwards are those of the runs made, in order. */
  lemma {:induction false} FoldAfters(runs: seq<Run>, k: nat)
    requires k <= |runs|
    ensures var f := FoldRuns(runs, k);
            forall j :: k <= j < k + |f.afters| ==> f.afters[j - k] == runs[j].after
    decreases |runs| - k
  {
    if k < |runs| && !Stops(runs[k].outcome) {
      FoldAfters(runs, k + 1);
      var f, rest := FoldRuns(runs, k), FoldRuns(runs, k + 1);
      assert f.afters == [runs[k].after] + rest.afters;
      forall j | k + 1 <= j < k + |f.afters| ensures f.afters[j - k] == runs[j].after {
        assert f.afters[j - k] == rest.afters[j - (k + 1)];
      }
    }
  }

  // ---------------------------------------------------------------------------------------------
  // Arrays

  /**
   * Fail-fast over a non-empty array: when element `i` of the traversal is
   * the first to stop, its outcome is the matcher's, the oracle calls are
   * those of elements 0..i only, and the later elements stay in traversal order.
   */
  lemma ArrayFailFast(h: Host, es: seq<Value>, i: nat, ignore: bool, shape: Value, hint: Option<string>)
    requires !shape.Undefined? && i < |es|
    requires forall j :: 0 <= j < i ==> !Stops(ElementRun(h, Arr(es), Traversal(h, es, ignore), j, ignore, shape, hint).outcome)
    requires Stops(ElementRun(h, Arr(es), Traversal(h, es, ignore), i, ignore, shape, hint).outcome)
    ensures var order := Traversal(h, es, ignore);
            var runs := ElementRuns(h, Arr(es), order, ignore, shape, hint);
            Match(h, Arr(es), ignore, shape, hint)
              == Run(runs[i].outcome, CallsOf(runs, 0, i + 1), Arr(AftersOf(runs, 0, i + 1) + order[i + 1..]))
  {
    var order := Traversal(h, es, ignore);
    assert |order| == |es| by { assert |multiset(order)| == |multiset(es)|; }
    FoldFailFast(ElementRuns(h, Arr(es), order, ignore, shape, hint), 0, i);
  }

  /**
   * When every element of a non-empty array passes, the matcher passes with
   * its own result, after one run per element in traversal order.
   */
  lemma ArrayAllPass(h: Host, es: seq<Value>, ignore: bool, shape: Value, hint: Option<string>)
    requires !shape.Undefined? && |es| > 0
    requires forall j :: 0 <= j < |es| ==> !Stops(ElementRun(h, Arr(es), Traversal(h, es, ignore), j, ignore, shape, hint).outcome)
    ensures var runs := ElementRuns(h, Arr(es), Traversal(h, es, ignore), ignore, shape, hint);
            Match(h, Arr(es), ignore, shape, hint) == Run(AllPassed, CallsOf(runs, 0, |es|), Arr(AftersOf(runs, 0, |es|)))
    ensures Match(h, Arr(es), ignore, shape, hint).outcome.result.pass
  {
    var order := Traversal(h, es, ignore);
    assert |order| == |es| by { assert |multiset(order)| == |multiset(es)|; }
    var runs := ElementRuns(h, Arr(es), order, ignore, shape, hint);
    FoldAllPass(runs, 0);
    assert AftersOf(runs, 0, |es|) + order[|es|..] == AftersOf(runs, 0, |es|);
  }

  /** Sibling elements get different hints, so their snapshots do not collide. */
  lemma ElementHintsDistinct(hint: Option<string>, i: nat, j: nat)
    requires i != j
    ensures Extend(hint, IndexText(i)) != Extend(hint, IndexText(j))
  {
    var p := if hint.Some? && hint.value != "" then hint.value + " - array index " else "array index ";
    assert Extend(hint, IndexText(i)) == p + Decimal.NatToString(i);
    assert Extend(hint, IndexText(j)) == p + Decimal.NatToString(j);
    if p + Decimal.NatToString(i) == p + Decimal.NatToString(j) {
      assert Decimal.NatToString(i) == (p + Decimal.NatToString(i))[|p|..];
      assert Decimal.NatToString(j) == (p + Decimal.NatToString(j))[|p|..];
      Decimal.NatToStringInjective(i, j);
    }
  }

  // ---------------------------------------------------------------------------------------------
  // Objects

  /** `Object.keys(null)` throws before the oracle is called. */
  lemma NullWithShapeThrows(h: Host, ignore: bool, shape: Value, hint: Option<string>)
    requires !shape.Undefined?
    ensures Match(h, Null, ignore, shape, hint) == Run(Threw(CannotConvertToObject), [], Null)
  {
  }

  /**
   * A matcher key the received object lacks aborts the match with an error
   * naming that key, before any oracle call and without touching the value.
   */
  lemma MissingKeyAborts(h: Host, received: Value, ignore: bool, shape: Value, hint: Option<string>, key: string)
    requires received.Obj? || received.Date?
    requires !shape.Undefined? && !shape.Null?
    requires key in OwnKeys(shape).value && key !in OwnKeys(received).value
    ensures Match(h, received, ignore, shape, hint).outcome.Threw?
    ensures Match(h, received, ignore, shape, hint).outcome.error.MissingKey?
    ensures Match(h, received, ignore, shape, hint).outcome.error.key in OwnKeys(shape).value
    ensures Match(h, received, ignore, shape, hint).outcome.error.key !in OwnKeys(received).value
    ensures Match(h, received, ignore, shape, hint).calls == []
    ensures Match(h, received, ignore, shape, hint).after == received
  {
    FirstMissingSpec(OwnKeys(shape).value, OwnKeys(received).value);
  }

  /**
   * With matchers, a Date goes down the object branch, where it has no own
   * entries: every Date makes the same oracle calls, whatever its time, and
   * ends the same way, except that a missing-key error quotes the Date it
   * was given; the Date is left as it was.
   */
  lemma DateTimeIgnored(h: Host, t1: int, t2: int, ignore: bool, shape: Value, hint: Option<string>)
    requires !shape.Undefined?
    ensures var o1 := Match(h, Date(t1), ignore, shape, hint).outcome;
            var o2 := Match(h, Date(t2), ignore, shape, hint).outcome;
            o1 == o2 || (o1.Threw? && o2.Threw? && o1.error.MissingKey? && o2.error.MissingKey? && o1.error.key == o2.error.key)
    ensures Match(h, Date(t1), ignore, shape, hint).calls == Match(h, Date(t2), ignore, shape, hint).calls
    ensures Match(h, Date(t1), ignore, shape, hint).after == Date(t1)
  {
    DateObjectRun(h, t1, ignore, shape, hint);
    DateObjectRun(h, t2, ignore, shape, hint);
  }

  /**
   * A Date under matchers has no own entries: null matchers throw, a matcher
   * key throws as missing, and otherwise the one oracle call snapshots `{}`
   * against the matchers' entries.
   */
  lemma DateObjectRun(h: Host, t: int, ignore: bool, shape: Value, hint: Option<string>)
    requires !shape.Undefined?
    ensures Match(h, Date(t), ignore, shape, hint)
         == if shape.Null? then Run(Threw(CannotConvertToObject), [], Date(t))
            else if FirstMissing(OwnKeys(shape).value, []).Some? then
              Run(Threw(MissingKey(Date(t), FirstMissing(OwnKeys(shape).value, []).value)), [], Date(t))
            else
              var args := BaseArgs([], shape, hint);
              Run(h.toMatchSnapshot(args), [args], Date(t))
  {
    assert OwnEntries(Date(t)) == Some([]);
    if !shape.Null? {
      assert DeferredEntries([], shape) == [];
      assert PropertyRuns(h, Date(t), [], ignore, shape, hint) == [];
    }
  }

  /** The deferred entries keep the object's enumeration order: filtering distributes over concatenation. */
  lemma {:induction false} DeferredEntriesAppend(a: seq<Entry>, b: seq<Entry>, shape: Value)
    ensures DeferredEntries(a + b, shape) == DeferredEntries(a, shape) + DeferredEntries(b, shape)
    decreases |a|
  {
    if |a| == 0 {
      assert a + b == b;
    } else {
      assert (a + b)[0] == a[0] && (a + b)[1..] == a[1..] + b;
      DeferredEntriesAppend(a[1..], b, shape);
      if IsDeferred(shape, a[0]) {
        assert [a[0]] + (DeferredEntries(a[1..], shape) + DeferredEntries(b, shape))
            == ([a[0]] + DeferredEntries(a[1..], shape)) + DeferredEntries(b, shape);
      }
    }
  }

  /**
   * With every matcher key present, the first oracle call is the base
   * snapshot: the received entries and the matchers' entries without the
   * deferred keys, then the hint; a base result that stops is returned at once.
   */
  lemma BaseSnapshotFirst(h: Host, received: Value, ignore: bool, shape: Value, hint: Option<string>)
    requires received.Obj? || received.Date?
    requires !shape.Undefined? && !shape.Null?
    requires forall k :: k in OwnKeys(shape).value ==> k in OwnKeys(received).value
    ensures var run := Match(h, received, ignore, shape, hint);
            var entries := OwnEntries(received).value;
            var args := BaseArgs(entries, shape, hint);
            && |run.calls| >= 1 && run.calls[0] == args
            && (forall e :: e in args[0].props <==> e in entries && !IsDeferred(shape, e) && e.0 !in KeysOf(DeferredEntries(entries, shape)))
            && (Stops(h.toMatchSnapshot(args)) ==> run.outcome == h.toMatchSnapshot(args) && |run.calls| == 1)
  {
    var entries := OwnEntries(received).value;
    var ds := DeferredEntries(entries, shape);
    FirstMissingSpec(OwnKeys(shape).value, OwnKeys(received).value);
    DeferredEntriesMembers(entries, shape);
    RemoveKeysMembers(entries, KeysOf(ds));
    forall e | e in entries && IsDeferred(shape, e) ensures e.0 in KeysOf(ds) {
      var i :| 0 <= i < |ds| && ds[i] == e;
      assert KeysOf(ds)[i] == e.0;
    }
  }

  /**
   * After a passing base snapshot, each deferred key is matched in order;
   * when deferred key `i` is the first to stop, its outcome is returned and
   * no later key is visited.
   */
  lemma ObjectFailFast(h: Host, ps: seq<Entry>, i: nat, ignore: bool, shape: Value, hint: Option<string>)
    requires !shape.Undefined? && !shape.Null?
    requires forall k :: k in OwnKeys(shape).value ==> k in KeysOf(ps)
    requires !Stops(h.toMatchSnapshot(BaseArgs(ps, shape, hint)))
    requires i < |DeferredEntries(ps, shape)|
    requires forall j :: 0 <= j < i ==> !Stops(PropertyRun(h, Obj(ps), DeferredEntries(ps, shape), j, ignore, shape, hint).outcome)
    requires Stops(PropertyRun(h, Obj(ps), DeferredEntries(ps, shape), i, ignore, shape, hint).outcome)
    ensures var runs := PropertyRuns(h, Obj(ps), DeferredEntries(ps, shape), ignore, shape, hint);
            && Match(h, Obj(ps), ignore, shape, hint).outcome == runs[i].outcome
            && Match(h, Obj(ps), ignore, shape, hint).calls == [BaseArgs(ps, shape, hint)] + CallsOf(runs, 0, i + 1)
  {
    FirstMissingSpec(OwnKeys(shape).value, KeysOf(ps));
    FoldFailFast(PropertyRuns(h, Obj(ps), DeferredEntries(ps, shape), ignore, shape, hint), 0, i);
  }

  /**
   * When the base snapshot and every deferred key pass, the base snapshot's
   * result is returned, after the base call and one run per deferred key in order.
   */
  lemma ObjectAllPass(h: Host, ps: seq<Entry>, ignore: bool, shape: Value, hint: Option<string>)
    requires !shape.Undefined? && !shape.Null?
    requires forall k :: k in OwnKeys(shape).value ==> k in KeysOf(ps)
    requires !Stops(h.toMatchSnapshot(BaseArgs(ps, shape, hint)))
    requires forall j :: 0 <= j < |DeferredEntries(ps, shape)| ==> !Stops(PropertyRun(h, Obj(ps), DeferredEntries(ps, shape), j, ignore, shape, hint).outcome)
    ensures var runs := PropertyRuns(h, Obj(ps), DeferredEntries(ps, shape), ignore, shape, hint);
            && Match(h, Obj(ps), ignore, shape, hint).outcome == h.toMatchSnapshot(BaseArgs(ps, shape, hint))
            && Match(h, Obj(ps), ignore, shape, hint).calls == [BaseArgs(ps, shape, hint)] + CallsOf(runs, 0, |runs|)
  {
    FirstMissingSpec(OwnKeys(shape).value, KeysOf(ps));
    FoldAllPass(PropertyRuns(h, Obj(ps), DeferredEntries(ps, shape), ignore, shape, hint), 0);
  }

  // ---------------------------------------------------------------------------------------------
  // The received value afterwards

  function ValuesOf(ds: seq<Entry>): (vs: seq<Value>)
    ensures |vs| == |ds| && forall j :: 0 <= j < |ds| ==> vs[j] == ds[j].1
  {
    seq(|ds|, j requires 0 <= j < |ds| => ds[j].1)
  }

  /** Putting back the deferred values unchanged gives the entries back. */
  lemma {:induction false} SpliceUnchanged(es: seq<Entry>, shape: Value, afters: seq<Value>)
    requires |afters| <= |DeferredEntries(es, shape)|
    requires afters == ValuesOf(DeferredEntries(es, shape))[..|afters|]
    ensures Splice(es, shape, afters) == es
    decreases |es|
  {
    if |es| > 0 {
      var ds := DeferredEntries(es, shape);
      if IsDeferred(shape, es[0]) && |afters| > 0 {
        assert ds == [es[0]] + DeferredEntries(es[1..], shape);
        assert afters[0] == es[0].1;
        assert afters[1..] == ValuesOf(DeferredEntries(es[1..], shape))[..|afters| - 1];
        SpliceUnchanged(es[1..], shape, afters[1..]);
      } else if IsDeferred(shape, es[0]) {
        SpliceUnchanged(es[1..], shape, afters);
      } else {
        SpliceUnchanged(es[1..], shape, afters);
      }
      assert es == [es[0]] + es[1..];
    }
  }

  /**
   * An array whose visited elements all come back as they went in ends up
   * in traversal order.
   */
  lemma ArrayAfterAllKept(h: Host, received: Value, ignore: bool, shape: Value, hint: Option<string>)
    requires received.Arr? && |received.elems| > 0 && !shape.Undefined?
    requires var order := Traversal(h, received.elems, ignore);
             forall j :: 0 <= j < |order| ==> ElementRun(h, received, order, j, ignore, shape, hint).after == order[j]
    ensures Match(h, received, ignore, shape, hint).after == Arr(Traversal(h, received.elems, ignore))
  {
    var order := Traversal(h, received.elems, ignore);
    var runs := ElementRuns(h, received, order, ignore, shape, hint);
    FoldAfters(runs, 0);
    var f := FoldRuns(runs, 0);
    forall j | 0 <= j < |f.afters| ensures f.afters[j] == order[j] {
      assert runs[j].after == order[j];
    }
    assert f.afters + order[|f.afters|..] == order;
  }

  /** Runs that give every deferred value back unchanged leave the entries as they were. */
  lemma SpliceAllKept(runs: seq<Run>, ps: seq<Entry>, shape: Value)
    requires |runs| == |DeferredEntries(ps, shape)|
    requires forall j :: 0 <= j < |runs| ==> runs[j].after == DeferredEntries(ps, shape)[j].1
    ensures Splice(ps, shape, FoldRuns(runs, 0).afters) == ps
  {
    var ds := DeferredEntries(ps, shape);
    FoldAfters(runs, 0);
    var f := FoldRuns(runs, 0);
    forall j | 0 <= j < |f.afters| ensures f.afters[j] == ValuesOf(ds)[j] {
      assert runs[j].after == ds[j].1;
    }
    assert f.afters == ValuesOf(ds)[..|f.afters|];
    SpliceUnchanged(ps, shape, f.afters);
  }

  /**
   * An object whose deferred entries all come back as they went in is left
   * as it was.
   */
  lemma ObjectAfterAllKept(h: Host, ps: seq<Entry>, ignore: bool, shape: Value, hint: Option<string>)
    requires !shape.Undefined?
    requires var ds := DeferredEntries(ps, shape);
             forall j :: 0 <= j < |ds| ==> PropertyRun(h, Obj(ps), ds, j, ignore, shape, hint).after == ds[j].1
    ensures Match(h, Obj(ps), ignore, shape, hint).after == Obj(ps)
  {
    ObjectRunAfterAllKept(h, ps, ignore, shape, hint);
  }

  lemma ObjectRunAfterAllKept(h: Host, ps: seq<Entry>, ignore: bool, shape: Value, hint: Option<string>)
    requires !shape.Undefined?
    requires var ds := DeferredEntries(ps, shape);
             forall j :: 0 <= j < |ds| ==> PropertyRun(h, Obj(ps), ds, j, ignore, shape, hint).after == ds[j].1
    ensures MatchObject(h, Obj(ps), ignore, shape, hint).after == Obj(ps)
  {
    var ds := DeferredEntries(ps, shape);
    var runs := PropertyRuns(h, Obj(ps), ds, ignore, shape, hint);
    forall j | 0 <= j < |runs| ensures runs[j].after == ds[j].1 {
      assert 0 <= j < |DeferredEntries(ps, shape)|;
      assert runs[j] == PropertyRun(h, Obj(ps), ds, j, ignore, shape, hint);
    }
    SpliceAllKept(runs, ps, shape);
  }

  /** Unless array order is ignored, the received value is left as it was, at every depth. */
  lemma {:induction false} UnchangedWithoutIgnore(h: Host, received: Value, shape: Value, hint: Option<string>)
    ensures Match(h, received, false, shape, hint).after == received
    decreases received
  {
    if !shape.Undefined? && received.Arr? && |received.elems| > 0 {
      var order := received.elems;
      forall j | 0 <= j < |order| ensures ElementRun(h, received, order, j, false, shape, hint).after == order[j] {
        UnchangedWithoutIgnore(h, order[j], shape, Some(Extend(hint, IndexText(j))));
      }
      ArrayAfterAllKept(h, received, false, shape, hint);
    } else if !shape.Undefined? && received.Obj? {
      var ds := DeferredEntries(received.props, shape);
      forall j | 0 <= j < |ds| ensures PropertyRun(h, received, ds, j, false, shape, hint).after == ds[j].1 {
        assert ds[j] in received.props;
        UnchangedWithoutIgnore(h, ds[j].1, Member(shape, ds[j].0), Some(Extend(hint, PropertyText(ds[j].0))));
      }
      ObjectAfterAllKept(h, received.props, false, shape, hint);
    }
  }

  /** A value with no array or object inside it to sort is left as it is. */
  lemma FlatUnchanged(h: Host, received: Value, ignore: bool, shape: Value, hint: Option<string>)
    requires !received.Arr? && !received.Obj?
    ensures Match(h, received, ignore, shape, hint).after == received
  {
  }

  /**
   * With array order ignored, an array of non-array, non-object elements is
   * left sorted in the default order, in place of the caller's order.
   */
  lemma SortedInPlace(h: Host, es: seq<Value>, shape: Value, hint: Option<string>)
    requires !shape.Undefined? && |es| > 0
    requires forall j :: 0 <= j < |es| ==> !es[j].Arr? && !es[j].Obj?
    ensures Match(h, Arr(es), true, shape, hint).after == Arr(DefaultSort.SortDefault(h.stringForm, es))
  {
    var order := Traversal(h, es, true);
    forall j | 0 <= j < |order| ensures ElementRun(h, Arr(es), order, j, true, shape, hint).after == order[j] {
      assert order[j] in multiset(es);
      FlatUnchanged(h, order[j], true, shape, Some(Extend(hint, IndexText(j))));
    }
    ArrayAfterAllKept(h, Arr(es), true, shape, hint);
  }

  /** An array as the default sort leaves it; any other value as it is. */
  function SortedArray(f: Value -> string, v: Value): Value {
    if v.Arr? then Arr(DefaultSort.SortDefault(f, v.elems)) else v
  }

  /** `r` is `ps` with every deferred array sorted in the default order and every other entry as it was. */
  predicate DeferredSorted(f: Value -> string, ps: seq<Entry>, shape: Value, r: seq<Entry>) {
    && |r| == |ps| && KeysOf(r) == KeysOf(ps)
    && forall i :: 0 <= i < |ps| ==>
         r[i] == if IsDeferred(shape, ps[i]) then (ps[i].0, Arr(DefaultSort.SortDefault(f, ps[i].1.elems))) else ps[i]
  }

  /** Deferred entry `i` is the `DeferredBefore(ps, shape, i)`-th deferred entry. */
  lemma DeferredAt(ps: seq<Entry>, shape: Value, i: nat)
    requires i < |ps| && IsDeferred(shape, ps[i])
    ensures DeferredBefore(ps, shape, i) < |DeferredEntries(ps, shape)|
    ensures DeferredEntries(ps, shape)[DeferredBefore(ps, shape, i)] == ps[i]
  {
    assert ps == ps[..i] + ps[i..];
    DeferredEntriesAppend(ps[..i], ps[i..], shape);
    assert ps[i..][0] == ps[i];
    assert DeferredEntries(ps[i..], shape) == [ps[i]] + DeferredEntries(ps[i..][1..], shape);
  }

  /** A deferred array of flat elements comes back sorted when array order is ignored. */
  lemma DeferredRunSorted(h: Host, ps: seq<Entry>, shape: Value, hint: Option<string>, j: nat)
    requires j < |DeferredEntries(ps, shape)|
    requires forall e, x :: e in ps && IsDeferred(shape, e) && x in e.1.elems ==> !x.Arr? && !x.Obj?
    ensures var ds := DeferredEntries(ps, shape);
            PropertyRun(h, Obj(ps), ds, j, true, shape, hint).after == SortedArray(h.stringForm, ds[j].1)
  {
    var ds := DeferredEntries(ps, shape);
    DeferredEntriesMembers(ps, shape);
    assert ds[j] in ds;
    var es := ds[j].1.elems;
    if |es| > 0 {
      forall k | 0 <= k < |es| ensures !es[k].Arr? && !es[k].Obj? {
        assert es[k] in es;
      }
      SortedInPlace(h, es, Member(shape, ds[j].0), Some(Extend(hint, PropertyText(ds[j].0))));
    }
  }

  /**
   * With array order ignored, when the base snapshot and every deferred key
   * pass, each deferred array of flat elements is left sorted in place in
   * the caller's object, and every other entry is left as it was.
   */
  lemma DeferredSortedInPlace(h: Host, ps: seq<Entry>, shape: Value, hint: Option<string>)
    requires !shape.Undefined? && !shape.Null?
    requires forall k :: k in OwnKeys(shape).value ==> k in KeysOf(ps)
    requires !Stops(h.toMatchSnapshot(BaseArgs(ps, shape, hint)))
    requires forall j :: 0 <= j < |DeferredEntries(ps, shape)| ==> !Stops(PropertyRun(h, Obj(ps), DeferredEntries(ps, shape), j, true, shape, hint).outcome)
    requires forall e, x :: e in ps && IsDeferred(shape, e) && x in e.1.elems ==> !x.Arr? && !x.Obj?
    ensures var after := Match(h, Obj(ps), true, shape, hint).after;
            && after.Obj? && |after.props| == |ps| && KeysOf(after.props) == KeysOf(ps)
            && forall i :: 0 <= i < |ps| ==>
                 after.props[i] == if IsDeferred(shape, ps[i]) then (ps[i].0, Arr(DefaultSort.SortDefault(h.stringForm, ps[i].1.elems))) else ps[i]
  {
    ObjectRunSorted(h, ps, shape, hint);
  }

  lemma ObjectRunSorted(h: Host, ps: seq<Entry>, shape: Value, hint: Option<string>)
    requires !shape.Undefined? && !shape.Null?
    requires forall k :: k in OwnKeys(shape).value ==> k in KeysOf(ps)
    requires !Stops(h.toMatchSnapshot(BaseArgs(ps, shape, hint)))
    requires forall j :: 0 <= j < |DeferredEntries(ps, shape)| ==> !Stops(PropertyRun(h, Obj(ps), DeferredEntries(ps, shape), j, true, shape, hint).outcome)
    requires forall e, x :: e in ps && IsDeferred(shape, e) && x in e.1.elems ==> !x.Arr? && !x.Obj?
    ensures var after := MatchObject(h, Obj(ps), true, shape, hint).after;
            after.Obj? && DeferredSorted(h.stringForm, ps, shape, after.props)
  {
    var afters := FoldRuns(PropertyRuns(h, Obj(ps), DeferredEntries(ps, shape), true, shape, hint), 0).afters;
    assert DeferredSorted(h.stringForm, ps, shape, Splice(ps, shape, afters)) by {
      DeferredAftersSorted(h, ps, shape, hint);
      SpliceSorted(ps, shape, afters, h.stringForm);
    }
    assert MatchObject(h, Obj(ps), true, shape, hint).after == Obj(Splice(ps, shape, afters)) by {
      ObjectRunSplice(h, ps, true, shape, hint);
    }
  }

  /** When every deferred key passes, the values the runs leave are the deferred arrays, sorted. */
  lemma DeferredAftersSorted(h: Host, ps: seq<Entry>, shape: Value, hint: Option<string>)
    requires forall j :: 0 <= j < |DeferredEntries(ps, shape)| ==> !Stops(PropertyRun(h, Obj(ps), DeferredEntries(ps, shape), j, true, shape, hint).outcome)
    requires forall e, x :: e in ps && IsDeferred(shape, e) && x in e.1.elems ==> !x.Arr? && !x.Obj?
    ensures var ds := DeferredEntries(ps, shape);
            var afters := FoldRuns(PropertyRuns(h, Obj(ps), ds, true, shape, hint), 0).afters;
            |afters| == |ds| && forall j :: 0 <= j < |ds| ==> afters[j] == SortedArray(h.stringForm, ds[j].1)
  {
    var ds := DeferredEntries(ps, shape);
    var runs := PropertyRuns(h, Obj(ps), ds, true, shape, hint);
    FoldAllPass(runs, 0);
    var afters := FoldRuns(runs, 0).afters;
    forall j | 0 <= j < |ds| ensures afters[j] == SortedArray(h.stringForm, ds[j].1) {
      DeferredRunSorted(h, ps, shape, hint, j);
      assert afters[j] == runs[j].after;
    }
  }

  /** After a passing base snapshot, the object is left with the values the deferred runs made put back. */
  lemma ObjectRunSplice(h: Host, ps: seq<Entry>, ignore: bool, shape: Value, hint: Option<string>)
    requires !shape.Undefined? && !shape.Null?
    requires forall k :: k in OwnKeys(shape).value ==> k in KeysOf(ps)
    requires !Stops(h.toMatchSnapshot(BaseArgs(ps, shape, hint)))
    ensures var runs := PropertyRuns(h, Obj(ps), DeferredEntries(ps, shape), ignore, shape, hint);
            MatchObject(h, Obj(ps), ignore, shape, hint).after == Obj(Splice(ps, shape, FoldRuns(runs, 0).afters))
  {
    FirstMissingSpec(OwnKeys(shape).value, KeysOf(ps));
  }

  /** Putting back the sorted deferred arrays sorts exactly the deferred entries. */
  lemma SpliceSorted(ps: seq<Entry>, shape: Value, afters: seq<Value>, f: Value -> string)
    requires var ds := DeferredEntries(ps, shape);
             |afters| == |ds| && forall j :: 0 <= j < |ds| ==> afters[j] == SortedArray(f, ds[j].1)
    ensures DeferredSorted(f, ps, shape, Splice(ps, shape, afters))
  {
    SpliceSpec(ps, shape, afters);
    forall i | 0 <= i < |ps| && IsDeferred(shape, ps[i])
      ensures Splice(ps, shape, afters)[i] == (ps[i].0, Arr(DefaultSort.SortDefault(f, ps[i].1.elems)))
    {
      DeferredAt(ps, shape, i);
    }
  }

  // ---------------------------------------------------------------------------------------------
  // Order insensitivity

  /** The element runs depend on the traversal order only, not on the array it was taken from. */
  lemma ElementRunsAnyParent(h: Host, r1: Value, r2: Value, order: seq<Value>, shape: Value, hint: Option<string>)
    requires r1.Arr? && multiset(order) == multiset(r1.elems)
    requires r2.Arr? && multiset(order) == multiset(r2.elems)
    ensures ElementRuns(h, r1, order, true, shape, hint) == ElementRuns(h, r2, order, true, shape, hint)
  {
    var a := ElementRuns(h, r1, order, true, shape, hint);
    var b := ElementRuns(h, r2, order, true, shape, hint);
    forall j | 0 <= j < |order| ensures a[j] == b[j] {
    }
  }

  /** Two arrays visited in the same order are matched alike. */
  lemma ArrayRunSameTraversal(h: Host, r1: Value, r2: Value, shape: Value, hint: Option<string>)
    requires r1.Arr? && r2.Arr? && Traversal(h, r1.elems, true) == Traversal(h, r2.elems, true)
    ensures MatchArrayRun(h, r1, true, shape, hint) == MatchArrayRun(h, r2, true, shape, hint)
  {
    ElementRunsAnyParent(h, r1, r2, Traversal(h, r1.elems, true), shape, hint);
  }

  /**
   * With array order ignored and matchers given, rearranging an array's
   * elements changes nothing (outcome, oracle calls, final value) as long as
   * no two different elements tie in the default order, that is, share a
   * string form.
   */
  lemma OrderInsensitive(h: Host, es: seq<Value>, p: seq<Value>, shape: Value, hint: Option<string>)
    requires !shape.Undefined? && multiset(p) == multiset(es)
    requires DefaultSort.NoTies(h.stringForm, es)
    ensures Match(h, Arr(p), true, shape, hint) == Match(h, Arr(es), true, shape, hint)
  {
    assert |p| == |es| by { assert |multiset(p)| == |multiset(es)|; }
    DefaultSort.SortPermutationInvariant(h.stringForm, es, p);
    if |es| > 0 {
      ArrayRunSameTraversal(h, Arr(p), Arr(es), shape, hint);
    }
  }
}
