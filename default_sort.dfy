/**
 * The ordering of `Array.prototype.sort()` without a comparator, used by the
 * snapshot matcher when array order is ignored (src/snapshot.ts:70):
 * undefined elements go last, the others are ordered by their string forms,
 * compared character by character; equal elements keep their relative order.
 * The ToString form that the comparator applies is supplied by the host.
 */
module DefaultSort {
  import opened JsValues

  /** Lexicographic order on strings, a proper prefix first. */
  predicate LexLe(a: string, b: string)
    decreases |a|
  {
    if |a| == 0 then true
    else if |b| == 0 then false
    else if a[0] != b[0] then a[0] < b[0]
    else LexLe(a[1..], b[1..])
  }

  lemma {:induction false} LexLeTotal(a: string, b: string)
    ensures LexLe(a, b) || LexLe(b, a)
    decreases |a|
  {
    if |a| > 0 && |b| > 0 && a[0] == b[0] {
      LexLeTotal(a[1..], b[1..]);
    }
  }

  lemma {:induction false} LexLeTransitive(a: string, b: string, c: string)
    requires LexLe(a, b) && LexLe(b, c)
    ensures LexLe(a, c)
    decreases |a|
  {
    if |a| > 0 && |b| > 0 && |c| > 0 && a[0] == b[0] && b[0] == c[0] {
      LexLeTransitive(a[1..], b[1..], c[1..]);
    }
  }

  /** `a` may precede `b` in the default order. */
  predicate SortLe(stringForm: Value -> string, a: Value, b: Value) {
    b.Undefined? || (!a.Undefined? && LexLe(stringForm(a), stringForm(b)))
  }

  lemma SortLeTotal(f: Value -> string, a: Value, b: Value)
    ensures SortLe(f, a, b) || SortLe(f, b, a)
  {
    LexLeTotal(f(a), f(b));
  }

  lemma SortLeTransitive(f: Value -> string, a: Value, b: Value, c: Value)
    requires SortLe(f, a, b) && SortLe(f, b, c)
    ensures SortLe(f, a, c)
  {
    if !c.Undefined? {
      LexLeTransitive(f(a), f(b), f(c));
    }
  }

  predicate Sorted(f: Value -> string, s: seq<Value>) {
    forall i, j :: 0 <= i < j < |s| ==> SortLe(f, s[i], s[j])
  }

  /** Puts `x` in front of the first element it may precede. */
  function Insert(f: Value -> string, x: Value, s: seq<Value>): (r: seq<Value>)
    ensures multiset(r) == multiset(s) + multiset{x}
    ensures Sorted(f, s) ==> Sorted(f, r)
  {
    if |s| == 0 then [x]
    else if SortLe(f, x, s[0]) then
      InsertFrontSorted(f, x, s);
      [x] + s
    else
      var t := Insert(f, x, s[1..]);
      assert s == [s[0]] + s[1..];
      SortLeTotal(f, x, s[0]);
      InsertBehindSorted(f, s, x, t);
      [s[0]] + t
  }

  lemma InsertFrontSorted(f: Value -> string, x: Value, s: seq<Value>)
    requires |s| > 0 && SortLe(f, x, s[0])
    ensures Sorted(f, s) ==> Sorted(f, [x] + s)
  {
    if Sorted(f, s) {
      forall j | 0 < j < |s| ensures SortLe(f, x, s[j]) {
        SortLeTransitive(f, x, s[0], s[j]);
      }
    }
  }

  lemma InsertBehindSorted(f: Value -> string, s: seq<Value>, x: Value, t: seq<Value>)
    requires |s| > 0 && SortLe(f, s[0], x)
    requires multiset(t) == multiset(s[1..]) + multiset{x}
    requires Sorted(f, s[1..]) ==> Sorted(f, t)
    ensures Sorted(f, s) ==> Sorted(f, [s[0]] + t)
  {
    if Sorted(f, s) {
      forall j | 0 <= j < |t| ensures SortLe(f, s[0], t[j]) {
        assert t[j] in multiset(t);
        if t[j] != x {
          assert t[j] in multiset(s[1..]);
          var k :| 0 <= k < |s[1..]| && s[1..][k] == t[j];
          assert s[k + 1] == t[j];
        }
      }
      assert Sorted(f, s[1..]);
    }
  }

  /** Stable insertion sort in the default order. */
  function SortDefault(f: Value -> string, s: seq<Value>): (r: seq<Value>)
    ensures multiset(r) == multiset(s)
    ensures Sorted(f, r)
  {
    if |s| == 0 then []
    else
      assert s == [s[0]] + s[1..];
      Insert(f, s[0], SortDefault(f, s[1..]))
  }

  /** No two different elements of `s` tie in the default order. */
  predicate NoTies(f: Value -> string, s: seq<Value>) {
    forall a, b :: a in s && b in s && SortLe(f, a, b) && SortLe(f, b, a) ==> a == b
  }

  lemma MultisetTail(s: seq<Value>, t: seq<Value>)
    requires |s| > 0 && |t| > 0 && s[0] == t[0] && multiset(s) == multiset(t)
    ensures multiset(s[1..]) == multiset(t[1..])
  {
    assert s == [s[0]] + s[1..] && t == [t[0]] + t[1..];
    assert multiset(s) == multiset{s[0]} + multiset(s[1..]);
    assert multiset(t) == multiset{s[0]} + multiset(t[1..]);
    forall x ensures multiset(s[1..])[x] == multiset(t[1..])[x] {
      assert multiset(s)[x] == multiset(t)[x];
    }
  }

  lemma SortedHeads(f: Value -> string, s: seq<Value>, t: seq<Value>)
    requires |s| > 0 && Sorted(f, s) && Sorted(f, t) && multiset(s) == multiset(t)
    requires NoTies(f, s)
    ensures |t| > 0 && s[0] == t[0]
  {
    assert s[0] in multiset(t);
    var i :| 0 <= i < |t| && t[i] == s[0];
    assert t[0] in multiset(s);
    var j :| 0 <= j < |s| && s[j] == t[0];
    SortLeTotal(f, s[0], s[0]);
    assert SortLe(f, t[0], s[0]) by { if i > 0 { assert SortLe(f, t[0], t[i]); } }
    assert SortLe(f, s[0], t[0]) by { if j > 0 { assert SortLe(f, s[0], s[j]); } }
  }

  /**
   * Two sorted arrangements of the same elements coincide when the order has
   * no ties between different values.
   */
  lemma {:induction false} SortedUnique(f: Value -> string, s: seq<Value>, t: seq<Value>)
    requires Sorted(f, s) && Sorted(f, t) && multiset(s) == multiset(t)
    requires NoTies(f, s)
    ensures s == t
    decreases |s|
  {
    if |s| == 0 {
      assert |multiset(t)| == 0;
    } else {
      SortedHeads(f, s, t);
      MultisetTail(s, t);
      assert NoTies(f, s[1..]) by {
        forall a, b | a in s[1..] && b in s[1..] ensures a in s && b in s { }
      }
      SortedUnique(f, s[1..], t[1..]);
      assert s == [s[0]] + s[1..] && t == [t[0]] + t[1..];
    }
  }

  /**
   * Sorting a rearrangement of the same elements gives the same array, when
   * no two different elements tie.
   */
  lemma SortPermutationInvariant(f: Value -> string, s: seq<Value>, p: seq<Value>)
    requires multiset(p) == multiset(s)
    requires NoTies(f, s)
    ensures SortDefault(f, p) == SortDefault(f, s)
  {
    var ss := SortDefault(f, s);
    assert NoTies(f, ss) by {
      forall a, b | a in ss && b in ss ensures a in s && b in s {
        assert a in multiset(ss) && b in multiset(ss);
      }
    }
    SortedUnique(f, ss, SortDefault(f, p));
  }
}
