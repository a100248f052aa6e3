/** Generic sequence vocabulary shared by every crawler variant: prefixes,
    flattening of nested probe tables, order-preserving de-duplication
    (Python's `list(dict.fromkeys(xs))` and the `if x not in out: out.append(x)`
    idiom), the first-match search that every probe walk performs, and the
    order-preserving filter used to compute the remaining work list. */
module Seqs {

  datatype Option<T> = None | Some(value: T)

  predicate IsPrefix<T(==)>(a: seq<T>, b: seq<T>) {
    |a| <= |b| && b[..|a|] == a
  }

  predicate Distinct<T(==)>(s: seq<T>) {
    forall i, j :: 0 <= i < j < |s| ==> s[i] != s[j]
  }

  lemma AppendAssoc<T>(a: seq<T>, b: seq<T>, c: seq<T>)
    ensures (a + b) + c == a + (b + c)
  {
  }

  lemma PrefixTrans<T>(a: seq<T>, b: seq<T>, c: seq<T>)
    requires IsPrefix(a, b) && IsPrefix(b, c)
    ensures IsPrefix(a, c)
  {
    assert c[..|b|][..|a|] == c[..|a|];
  }


  lemma PrefixOfAppend<T>(a: seq<T>, b: seq<T>)
    ensures IsPrefix(a, a + b)
  {
    assert (a + b)[..|a|] == a;
  }

  // ---------------------------------------------------------------------------
  // Flattening: the nested `for … in …` loops of the source walk Concat(groups).
  // ---------------------------------------------------------------------------

  function Concat<T>(ss: seq<seq<T>>): seq<T>
    decreases |ss|
  {
    if ss == [] then [] else Concat(ss[..|ss| - 1]) + ss[|ss| - 1]
  }

  lemma ConcatSnoc<T>(ss: seq<seq<T>>, i: nat)
    requires i < |ss|
    ensures Concat(ss[..i + 1]) == Concat(ss[..i]) + ss[i]
  {
    assert ss[..i + 1][..i] == ss[..i];
  }


  lemma {:induction false} ConcatUniformLength<T>(ss: seq<seq<T>>, n: nat)
    requires forall i :: 0 <= i < |ss| ==> |ss[i]| == n
    ensures |Concat(ss)| == |ss| * n
    decreases |ss|
  {
    if ss != [] {
      ConcatUniformLength(ss[..|ss| - 1], n);
      assert |Concat(ss)| == (|ss| - 1) * n + n;
    }
  }

  lemma {:induction false} ConcatUniformIndex<T>(ss: seq<seq<T>>, n: nat, i: nat, j: nat)
    requires forall k :: 0 <= k < |ss| ==> |ss[k]| == n
    requires i < |ss| && j < n
    ensures i * n + j < |Concat(ss)| && Concat(ss)[i * n + j] == ss[i][j]
    decreases |ss|
  {
    var init := ss[..|ss| - 1];
    ConcatUniformLength(init, n);
    if i < |ss| - 1 {
      ConcatUniformIndex(init, n, i, j);
      assert (i + 1) * n <= (|ss| - 1) * n by { MulMono(i + 1, |ss| - 1, n); }
    } else {
      assert i * n == |Concat(init)|;
    }
  }

  /** Every position of a flattened uniform table lies in one of its rows. */
  lemma {:induction false} ConcatUniformSplit<T>(ss: seq<seq<T>>, n: nat, k: nat) returns (i: nat, j: nat)
    requires forall r :: 0 <= r < |ss| ==> |ss[r]| == n
    requires k < |Concat(ss)|
    ensures i < |ss| && j < n && k == i * n + j && Concat(ss)[k] == ss[i][j]
    decreases |ss|
  {
    var init := ss[..|ss| - 1];
    ConcatUniformLength(init, n);
    if k < |Concat(init)| {
      i, j := ConcatUniformSplit(init, n, k);
    } else {
      i, j := |ss| - 1, k - |Concat(init)|;
    }
  }

  /** A first-match walk over a flattened uniform table, seen row by row: from
      position j of row i it finds the row's first success after j, or
      continues with the next row. */
  lemma {:induction false} FirstFromConcat<T>(ss: seq<seq<T>>, n: nat, ok: T -> bool, i: nat, j: nat)
    requires forall r :: 0 <= r < |ss| ==> |ss[r]| == n
    requires i < |ss| && j <= n
    ensures FirstFrom(ss[i], ok, j).Some? ==> FirstFrom(Concat(ss), ok, i * n + j) == Some(i * n + FirstFrom(ss[i], ok, j).value)
    ensures FirstFrom(ss[i], ok, j).None? ==> FirstFrom(Concat(ss), ok, i * n + j) == FirstFrom(Concat(ss), ok, (i + 1) * n)
    decreases n - j
  {
    if j < n {
      ConcatUniformIndex(ss, n, i, j);
      if !ok(ss[i][j]) {
        FirstFromConcat(ss, n, ok, i, j + 1);
      }
    } else {
      assert i * n + j == (i + 1) * n;
    }
  }

  lemma MulMono(a: nat, b: nat, n: nat)
    requires a <= b
    ensures a * n <= b * n
  {
  }

  // ---------------------------------------------------------------------------
  // Order-preserving de-duplication.
  // ---------------------------------------------------------------------------

  /** Keeps the first occurrence of every element, in order of first occurrence. */
  function Dedupe<T(==)>(s: seq<T>): seq<T>
    decreases |s|
  {
    if s == [] then []
    else
      var d := Dedupe(s[..|s| - 1]);
      if s[|s| - 1] in d then d else d + [s[|s| - 1]]
  }

  lemma DedupeSnoc<T>(s: seq<T>, x: T)
    ensures Dedupe(s + [x]) == if x in Dedupe(s) then Dedupe(s) else Dedupe(s) + [x]
  {
    assert (s + [x])[..|s|] == s;
  }

  lemma {:induction false} DedupeElements<T>(s: seq<T>)
    ensures forall x :: x in Dedupe(s) <==> x in s
    ensures |Dedupe(s)| <= |s|
    decreases |s|
  {
    if s != [] {
      var init := s[..|s| - 1];
      DedupeElements(init);
      assert s == init + [s[|s| - 1]];
    }
  }

  lemma DedupeMember<T>(s: seq<T>, i: nat)
    requires i < |Dedupe(s)|
    ensures Dedupe(s)[i] in s
  {
    var d := Dedupe(s);
    DedupeElements(s);
    var x := d[i];
    assert x in d;
  }

  lemma {:induction false} DedupeDistinct<T>(s: seq<T>)
    ensures Distinct(Dedupe(s))
    decreases |s|
  {
    if s != [] {
      DedupeDistinct(s[..|s| - 1]);
    }
  }

  lemma DedupeOfDistinct<T>(s: seq<T>)
    requires Distinct(s)
    ensures Dedupe(s) == s
    decreases |s|
  {
    if s != [] {
      var init := s[..|s| - 1];
      DedupeOfDistinct(init);
      DedupeElements(init);
      assert s[|s| - 1] !in init;
      assert init + [s[|s| - 1]] == s;
    }
  }

  /** Processing more input never changes what was already emitted. */
  lemma {:induction false} DedupePrefix<T>(s: seq<T>, i: nat)
    requires i <= |s|
    ensures IsPrefix(Dedupe(s[..i]), Dedupe(s))
    decreases |s| - i
  {
    if i == |s| {
      assert s[..i] == s;
    } else {
      DedupePrefix(s, i + 1);
      assert s[..i + 1][..i] == s[..i];
      PrefixOfAppend(Dedupe(s[..i]), [s[i]]);
      PrefixTrans(Dedupe(s[..i]), Dedupe(s[..i + 1]), Dedupe(s));
    }
  }

  /** Index of the first occurrence of x in s. */
  function IndexOf<T(==)>(s: seq<T>, x: T): (k: nat)
    requires x in s
    ensures k < |s| && s[k] == x && x !in s[..k]
  {
    if s[0] == x then 0 else 1 + IndexOf(s[1..], x)
  }

  lemma IndexOfAppend<T>(s: seq<T>, t: seq<T>, x: T)
    requires x in s
    ensures x in s + t && IndexOf(s + t, x) == IndexOf(s, x)
  {
    var k := IndexOf(s, x);
    assert (s + t)[k] == x;
    assert (s + t)[..k] == s[..k];
    IndexOfUnique(s + t, x, k);
  }

  lemma IndexOfUnique<T>(s: seq<T>, x: T, k: nat)
    requires k < |s| && s[k] == x && x !in s[..k]
    ensures IndexOf(s, x) == k
  {
    var m := IndexOf(s, x);
    assert forall t :: 0 <= t < k ==> s[..k][t] == s[t];
    assert forall t :: 0 <= t < m ==> s[..m][t] == s[t];
  }

  /** De-duplication lists elements in the order of their first occurrence. */
  lemma {:induction false} DedupeFirstSeenOrder<T>(s: seq<T>, i: nat, j: nat)
    requires i < j < |Dedupe(s)|
    ensures Dedupe(s)[i] in s && Dedupe(s)[j] in s
    ensures IndexOf(s, Dedupe(s)[i]) < IndexOf(s, Dedupe(s)[j])
    decreases |s|
  {
    DedupeElements(s);
    assert Dedupe(s)[i] in Dedupe(s) && Dedupe(s)[j] in Dedupe(s);
    var init := s[..|s| - 1];
    var last := s[|s| - 1];
    var d := Dedupe(init);
    assert s == init + [last];
    DedupeElements(init);
    if j < |d| {
      DedupeFirstSeenOrder(init, i, j);
      IndexOfAppend(init, [last], d[i]);
      IndexOfAppend(init, [last], d[j]);
    } else {
      // the element at j is the newly kept last element, first seen at |init|
      assert Dedupe(s) == d + [last] && last !in init;
      DedupeMember(init, i);
      IndexOfAppend(init, [last], d[i]);
      IndexOfUnique(s, last, |init|);
    }
  }

  // ---------------------------------------------------------------------------
  // The first-match walk.
  // ---------------------------------------------------------------------------

  /** The index of the first element at or after position i that satisfies
      ok, if any: where a "try each candidate, stop at the first success"
      loop that has reached position i stops. */
  function FirstFrom<T>(xs: seq<T>, ok: T -> bool, i: nat): (r: Option<nat>)
    ensures r.Some? ==> i <= r.value < |xs| && ok(xs[r.value])
    decreases |xs| - i
  {
    if i >= |xs| then None
    else if ok(xs[i]) then Some(i)
    else FirstFrom(xs, ok, i + 1)
  }

  /** FirstFrom finds the first success at or after i; None means that no
      element from i on succeeds. */
  lemma {:induction false} FirstFromSpec<T>(xs: seq<T>, ok: T -> bool, i: nat)
    ensures FirstFrom(xs, ok, i).Some? ==>
      var k := FirstFrom(xs, ok, i).value;
      ok(xs[k]) && forall j :: i <= j < k ==> !ok(xs[j])
    ensures FirstFrom(xs, ok, i).None? ==> forall j :: i <= j < |xs| ==> !ok(xs[j])
    decreases |xs| - i
  {
    if i < |xs| && !ok(xs[i]) {
      FirstFromSpec(xs, ok, i + 1);
    }
  }

  /** Conversely, a success preceded only by failures is the one found. */
  lemma {:induction false} FirstFromAt<T>(xs: seq<T>, ok: T -> bool, i: nat, k: nat)
    requires i <= k < |xs| && ok(xs[k])
    requires forall j :: i <= j < k ==> !ok(xs[j])
    ensures FirstFrom(xs, ok, i) == Some(k)
    decreases k - i
  {
    if i < k {
      FirstFromAt(xs, ok, i + 1, k);
    }
  }

  /** The first n elements of s (all of s when it is shorter): Python's
      `s[:n]`, and what a loop that breaks once n items are collected keeps. */
  function Take<T>(s: seq<T>, n: nat): (r: seq<T>)
    ensures |r| <= n && IsPrefix(r, s)
    ensures |r| < n ==> r == s
  {
    if |s| <= n then s else s[..n]
  }

  // ---------------------------------------------------------------------------
  // Order-preserving removal: `[n for n in names if n not in processed]`.
  // ---------------------------------------------------------------------------

  function Without<T(==)>(s: seq<T>, drop: set<T>): seq<T>
    decreases |s|
  {
    if s == [] then []
    else
      var r := Without(s[..|s| - 1], drop);
      if s[|s| - 1] in drop then r else r + [s[|s| - 1]]
  }

  /** Filtering distributes over concatenation, so the survivors keep their
      relative input order. */
  lemma {:induction false} WithoutAppend<T>(a: seq<T>, b: seq<T>, drop: set<T>)
    ensures Without(a + b, drop) == Without(a, drop) + Without(b, drop)
    decreases |b|
  {
    if b == [] {
      assert a + b == a;
    } else {
      var b' := b[..|b| - 1];
      WithoutAppend(a, b', drop);
      assert (a + b)[..|a + b| - 1] == a + b';
    }
  }

  lemma {:induction false} WithoutMembers<T>(s: seq<T>, drop: set<T>)
    ensures forall x :: x in Without(s, drop) <==> x in s && x !in drop
    ensures |Without(s, drop)| <= |s|
    decreases |s|
  {
    if s != [] {
      WithoutMembers(s[..|s| - 1], drop);
      assert s == s[..|s| - 1] + [s[|s| - 1]];
    }
  }

  lemma {:induction false} WithoutNothing<T>(s: seq<T>)
    ensures Without(s, {}) == s
    decreases |s|
  {
    if s != [] {
      WithoutNothing(s[..|s| - 1]);
      assert s == s[..|s| - 1] + [s[|s| - 1]];
    }
  }

  // ---------------------------------------------------------------------------
  // Collecting per-index results in a given visiting order.
  // ---------------------------------------------------------------------------

  /** What a loop collects when it visits the indices idx in order and index
      i contributes found(i): the results of tasks completing in that order. */
  function Gather<T>(idx: seq<nat>, found: nat -> seq<T>): seq<T>
    decreases |idx|
  {
    if idx == [] then [] else Gather(idx[..|idx| - 1], found) + found(idx[|idx| - 1])
  }

  /** The indices 0 .. n-1 in order. */
  function Indices(n: nat): (r: seq<nat>)
    ensures |r| == n && forall i :: 0 <= i < n ==> r[i] == i
  {
    seq(n, i requires 0 <= i < n => i)
  }

  /** An order of visiting n tasks: every index below n exactly once. */
  predicate IsOrdering(order: seq<nat>, n: nat) {
    multiset(order) == multiset(Indices(n))
  }

  lemma OrderingInRange(order: seq<nat>, n: nat)
    requires IsOrdering(order, n)
    ensures forall k :: 0 <= k < |order| ==> order[k] < n
  {
    forall k | 0 <= k < |order| ensures order[k] < n {
      assert order[k] in multiset(Indices(n));
    }
  }

  lemma {:induction false} GatherAppend<T>(p: seq<nat>, q: seq<nat>, found: nat -> seq<T>)
    ensures Gather(p + q, found) == Gather(p, found) + Gather(q, found)
    decreases |q|
  {
    if q == [] {
      assert p + q == p;
    } else {
      var init, last := q[..|q| - 1], q[|q| - 1];
      GatherAppend(p, init, found);
      assert (p + q)[..|p + q| - 1] == p + init;
      assert (p + q)[|p + q| - 1] == last;
      calc {
        Gather(p + q, found);
        Gather(p + init, found) + found(last);
        Gather(p, found) + Gather(init, found) + found(last);
        Gather(p, found) + (Gather(init, found) + found(last));
      }
    }
  }

  /** Up to order, what is collected does not depend on the visiting order. */
  lemma {:induction false} GatherPermutation<T>(p: seq<nat>, q: seq<nat>, found: nat -> seq<T>)
    requires multiset(p) == multiset(q)
    ensures multiset(Gather(p, found)) == multiset(Gather(q, found))
    decreases |p|
  {
    if p != [] {
      var x := p[|p| - 1];
      var init := p[..|p| - 1];
      assert p == init + [x];
      assert x in multiset(q);
      var j :| 0 <= j < |q| && q[j] == x;
      var rest := RemoveAt(q, j);
      assert multiset(init) == multiset(p) - multiset{x};
      assert multiset(rest) == multiset(q) - multiset{x};
      GatherPermutation(init, rest, found);
      GatherRemoveAt(q, j, found);
    }
  }

  /** q without its element j. */
  function RemoveAt(q: seq<nat>, j: nat): (r: seq<nat>)
    requires j < |q|
    ensures multiset(r) + multiset{q[j]} == multiset(q)
  {
    assert q == q[..j] + [q[j]] + q[j + 1..];
    q[..j] + q[j + 1..]
  }

  lemma {:induction false} GatherRemoveAt<T>(q: seq<nat>, j: nat, found: nat -> seq<T>)
    requires j < |q|
    ensures multiset(Gather(q, found)) == multiset(Gather(RemoveAt(q, j), found)) + multiset(found(q[j]))
  {
    var x, a, b := q[j], q[..j], q[j + 1..];
    assert q == (a + [x]) + b;
    assert RemoveAt(q, j) == a + b;
    GatherAppend(a + [x], b, found);
    GatherAppend(a, [x], found);
    GatherAppend(a, b, found);
    assert [x][..0] == [];
    assert Gather([x], found) == found(x);
    var ha, hb := Gather(a, found), Gather(b, found);
    assert Gather(q, found) == ha + found(x) + hb;
    assert Gather(a + b, found) == ha + hb;
  }

  /** Visiting one more index in input order collects its results last. */
  lemma GatherIndicesSnoc<T>(n: nat, found: nat -> seq<T>)
    ensures Gather(Indices(n + 1), found) == Gather(Indices(n), found) + found(n)
  {
    assert Indices(n + 1)[..n] == Indices(n);
  }

  /** In input order, x is collected exactly when some index below n
      contributes it. */
  lemma {:induction false} GatherIndicesMembers<T>(n: nat, found: nat -> seq<T>, x: T)
    ensures x in Gather(Indices(n), found) <==> exists i :: 0 <= i < n && x in found(i)
    decreases n
  {
    if n > 0 {
      GatherIndicesSnoc(n - 1, found);
      GatherIndicesMembers(n - 1, found, x);
    }
  }
}
