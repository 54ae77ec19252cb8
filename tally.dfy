/**
 * Counting with a JavaScript object used as a map: the keys in the order they
 * were first set (what `Object.entries` and `Object.values` list for keys that
 * are not array indices), how often each key was seen, and the stable
 * descending sort by count that `sort((a, b) => b.count - a.count)` performs.
 */
module Tally {

  /** A key with its count. */
  datatype Counted<K> = Counted(key: K, count: nat)

  /** How many elements of `xs` equal `k`. */
  function Occ<K(==)>(xs: seq<K>, k: K): (n: nat)
    ensures n <= |xs|
    ensures n == 0 <==> k !in xs
  {
    if xs == [] then 0
    else
      var n := Occ(xs[..|xs| - 1], k);
      assert k in xs[..|xs| - 1] ==> k in xs;
      assert k in xs ==> k in xs[..|xs| - 1] || k == xs[|xs| - 1] by {
        assert xs == xs[..|xs| - 1] + [xs[|xs| - 1]];
      }
      n + (if xs[|xs| - 1] == k then 1 else 0)
  }

  lemma OccSnoc<K>(xs: seq<K>, x: K, k: K)
    ensures Occ(xs + [x], k) == Occ(xs, k) + (if x == k then 1 else 0)
  {
    assert (xs + [x])[..|xs|] == xs;
  }

  predicate Distinct<K(==)>(xs: seq<K>) {
    forall i, j :: 0 <= i < j < |xs| ==> xs[i] != xs[j]
  }

  /** The distinct elements of `xs` in order of first appearance. */
  function FirstSeen<K(==)>(xs: seq<K>): (ks: seq<K>)
    ensures Distinct(ks)
    ensures forall i :: 0 <= i < |ks| ==> ks[i] in xs
    ensures forall i :: 0 <= i < |xs| ==> xs[i] in ks
  {
    if xs == [] then []
    else
      var init := xs[..|xs| - 1];
      var f := FirstSeen(init);
      assert xs == init + [xs[|xs| - 1]];
      if xs[|xs| - 1] in f then f else f + [xs[|xs| - 1]]
  }

  lemma FirstSeenSnoc<K>(xs: seq<K>, x: K)
    ensures FirstSeen(xs + [x]) == if x in FirstSeen(xs) then FirstSeen(xs) else FirstSeen(xs) + [x]
  {
    assert (xs + [x])[..|xs|] == xs;
  }

  /** One more element of `xs` extends its first-seen keys by that element, unless it was already seen. */
  lemma FirstSeenPrefixStep<K>(xs: seq<K>, i: nat, keys: seq<K>, keys': seq<K>)
    requires i < |xs|
    requires keys == FirstSeen(xs[..i])
    requires keys' == if xs[i] in keys then keys else keys + [xs[i]]
    ensures keys' == FirstSeen(xs[..i + 1])
  {
    assert xs[..i + 1] == xs[..i] + [xs[i]];
    FirstSeenSnoc(xs[..i], xs[i]);
  }

  /** The sum of the counts of the keys `ks` in `xs`. */
  function SumOcc<K(==)>(xs: seq<K>, ks: seq<K>): nat {
    if ks == [] then 0 else SumOcc(xs, ks[..|ks| - 1]) + Occ(xs, ks[|ks| - 1])
  }

  lemma {:induction false} SumOccSnocRow<K>(xs: seq<K>, x: K, ks: seq<K>)
    ensures SumOcc(xs + [x], ks) == SumOcc(xs, ks) + Occ(ks, x)
  {
    if ks != [] {
      SumOccSnocRow(xs, x, ks[..|ks| - 1]);
      OccSnoc(xs, x, ks[|ks| - 1]);
    }
  }

  lemma {:induction false} SumOccSnocKey<K>(xs: seq<K>, ks: seq<K>, k: K)
    ensures SumOcc(xs, ks + [k]) == SumOcc(xs, ks) + Occ(xs, k)
  {
    assert (ks + [k])[..|ks|] == ks;
  }

  /** In a duplicate-free sequence an element occurs at most once. */
  lemma {:induction false} OccDistinct<K>(ks: seq<K>, x: K)
    requires Distinct(ks)
    ensures Occ(ks, x) == if x in ks then 1 else 0
  {
    if ks != [] {
      var init := ks[..|ks| - 1];
      assert Distinct(init);
      OccDistinct(init, x);
      assert ks == init + [ks[|ks| - 1]];
      if ks[|ks| - 1] == x {
        assert x !in init;
      }
    }
  }

  /** Counting every first-seen key accounts for every element exactly once. */
  lemma {:induction false} SumOccFirstSeen<K>(xs: seq<K>)
    ensures SumOcc(xs, FirstSeen(xs)) == |xs|
  {
    if xs != [] {
      var init := xs[..|xs| - 1];
      var x := xs[|xs| - 1];
      assert xs == init + [x];
      SumOccFirstSeen(init);
      FirstSeenSnoc(init, x);
      var f := FirstSeen(init);
      SumOccSnocRow(init, x, f);
      OccDistinct(f, x);
      if x !in f {
        SumOccSnocKey(xs, f, x);
        SumOccSnocRow(init, x, f);
        OccSnoc(init, x, x);
      }
    }
  }

  /** Counting distinct keys never counts more elements than there are. */
  lemma {:induction false} SumOccDistinctBound<K>(xs: seq<K>, ks: seq<K>)
    requires Distinct(ks)
    ensures SumOcc(xs, ks) <= |xs|
  {
    if xs != [] {
      var init := xs[..|xs| - 1];
      var x := xs[|xs| - 1];
      assert xs == init + [x];
      SumOccDistinctBound(init, ks);
      SumOccSnocRow(init, x, ks);
      OccDistinct(ks, x);
    } else {
      SumOccEmpty(xs, ks);
    }
  }

  lemma {:induction false} SumOccEmpty<K>(xs: seq<K>, ks: seq<K>)
    requires xs == []
    ensures SumOcc(xs, ks) == 0
  {
    if ks != [] {
      SumOccEmpty(xs, ks[..|ks| - 1]);
    }
  }

  /**
   * `Object.entries(counts)` of a map built by counting `xs`: each first-seen
   * key with its number of occurrences.
   */
  function CountEntries<K(==)>(xs: seq<K>): (es: seq<Counted<K>>)
    ensures |es| == |FirstSeen(xs)|
    ensures forall i :: 0 <= i < |es| ==> es[i] == Counted(FirstSeen(xs)[i], Occ(xs, FirstSeen(xs)[i]))
  {
    var ks := FirstSeen(xs);
    seq(|ks|, i requires 0 <= i < |ks| => Counted(ks[i], Occ(xs, ks[i])))
  }

  function TotalCount<K(==)>(es: seq<Counted<K>>): nat {
    if es == [] then 0 else TotalCount(es[..|es| - 1]) + es[|es| - 1].count
  }

  /** Entries whose counts are the occurrences of `ks` add up to the sum of those occurrences. */
  lemma {:induction false} TotalOfCounts<K, L>(es: seq<Counted<L>>, xs: seq<K>, ks: seq<K>)
    requires |es| == |ks|
    requires forall i :: 0 <= i < |es| ==> es[i].count == Occ(xs, ks[i])
    ensures TotalCount(es) == SumOcc(xs, ks)
  {
    if ks != [] {
      TotalOfCounts(es[..|es| - 1], xs, ks[..|ks| - 1]);
    }
  }

  /** The counts of the entries add up to the number of elements counted. */
  lemma CountEntriesTotal<K>(xs: seq<K>)
    ensures TotalCount(CountEntries(xs)) == |xs|
  {
    TotalOfCounts(CountEntries(xs), xs, FirstSeen(xs));
    SumOccFirstSeen(xs);
  }

  /**
   * The counting loop `map[k] = (map[k] || 0) + 1` over `xs`: the keys in the
   * order they were first set, and the count of each.
   */
  method CountOccurrences<K(==)>(xs: seq<K>) returns (keys: seq<K>, counts: map<K, nat>)
    ensures keys == FirstSeen(xs)
    ensures CountsOf(counts, xs)
    ensures forall j :: 0 <= j < |keys| ==> keys[j] in counts
  {
    keys := [];
    counts := map[];
    var i := 0;
    while i < |xs|
      invariant i <= |xs|
      invariant keys == FirstSeen(xs[..i])
      invariant CountsOf(counts, xs[..i])
    {
      var x := xs[i];
      assert xs[..i + 1] == xs[..i] + [x];
      FirstSeenSnoc(xs[..i], x);
      CountStep(counts, xs[..i], x);
      if x in counts {
        counts := counts[x := counts[x] + 1];
      } else {
        keys := keys + [x];
        counts := counts[x := 1];
      }
      i := i + 1;
    }
    assert xs[..i] == xs;
    forall j | 0 <= j < |keys| ensures keys[j] in counts {
      FirstSeenHas(xs, keys[j]);
    }
  }

  /** `counts` holds exactly the elements of `xs`, each with its number of occurrences. */
  predicate CountsOf<K(==)>(counts: map<K, nat>, xs: seq<K>) {
    && (forall i :: 0 <= i < |xs| ==> xs[i] in counts)
    && (forall k :: k in counts ==> k in xs && counts[k] == Occ(xs, k))
  }

  /** One step of the counting loop. */
  lemma CountStep<K>(counts: map<K, nat>, xs: seq<K>, x: K)
    requires CountsOf(counts, xs)
    ensures x in counts <==> x in FirstSeen(xs)
    ensures CountsOf(counts[x := if x in counts then counts[x] + 1 else 1], xs + [x])
  {
    FirstSeenHas(xs, x);
    var c := counts[x := if x in counts then counts[x] + 1 else 1];
    var ys := xs + [x];
    forall i | 0 <= i < |ys| ensures ys[i] in c {
      if i < |xs| {
        assert ys[i] == xs[i];
      }
    }
    forall k | k in c ensures k in ys && c[k] == Occ(ys, k) {
      OccSnoc(xs, x, k);
      if k != x {
        assert k in counts;
      }
    }
  }

  lemma FirstSeenHas<K>(xs: seq<K>, x: K)
    ensures x in FirstSeen(xs) <==> x in xs
  {
    if x in xs {
      var i :| 0 <= i < |xs| && xs[i] == x;
      assert xs[i] in FirstSeen(xs);
    }
    if x in FirstSeen(xs) {
      var i :| 0 <= i < |FirstSeen(xs)| && FirstSeen(xs)[i] == x;
      assert FirstSeen(xs)[i] in xs;
    }
  }

  /**
   * The key list of a map built by the loop `if (!m[k]) m[k] = …` stays the
   * list of its keys when `k` is set: it grows by `k` exactly when `k` is new.
   */
  lemma KeysStep<K, V>(keys: seq<K>, m: map<K, V>, keys': seq<K>, m': map<K, V>, k: K)
    requires forall j :: 0 <= j < |keys| ==> keys[j] in m
    requires forall p :: p in m ==> p in keys
    requires keys' == if k in m then keys else keys + [k]
    requires forall p :: p in m' <==> p in m || p == k
    ensures forall j :: 0 <= j < |keys'| ==> keys'[j] in m'
    ensures forall p :: p in m' ==> p in keys'
  {
  }

  /** The first `n` elements of `s`, or all of it when it is shorter: `slice(0, n)`. */
  function Take<T>(s: seq<T>, n: nat): (r: seq<T>)
    ensures |r| <= n && |r| <= |s|
    ensures |r| == n || r == s
    ensures r == s[..|r|]
  {
    if |s| <= n then s else s[..n]
  }

  // ---- The stable descending sort by count.

  predicate SortedDesc<K(==)>(es: seq<Counted<K>>) {
    forall i, j :: 0 <= i < j < |es| ==> es[i].count >= es[j].count
  }

  /** Places `x` before the first element whose count is not larger, so equal counts keep their order. */
  function InsertDesc<K(==)>(x: Counted<K>, es: seq<Counted<K>>): (r: seq<Counted<K>>)
    requires SortedDesc(es)
    ensures |r| == |es| + 1
    ensures r[0] == x || (es != [] && r[0] == es[0])
    ensures SortedDesc(r)
    ensures multiset(r) == multiset(es) + multiset{x}
  {
    if es == [] || es[0].count <= x.count then [x] + es
    else
      var rest := InsertDesc(x, es[1..]);
      assert es == [es[0]] + es[1..];
      assert es[0].count >= rest[0].count;
      [es[0]] + rest
  }

  /** `sort((a, b) => b.count - a.count)`: a permutation ordered by non-increasing count. */
  function SortDesc<K(==)>(es: seq<Counted<K>>): (r: seq<Counted<K>>)
    ensures SortedDesc(r)
    ensures multiset(r) == multiset(es)
    ensures |r| == |es|
  {
    if es == [] then []
    else
      var rest := SortDesc(es[1..]);
      assert es == [es[0]] + es[1..];
      InsertDesc(es[0], rest)
  }

  /** The entries of `es` with count `c`, in order. */
  function WithCount<K>(es: seq<Counted<K>>, c: nat): seq<Counted<K>> {
    if es == [] then [] else (if es[0].count == c then [es[0]] else []) + WithCount(es[1..], c)
  }

  lemma WithCountCons<K>(y: Counted<K>, t: seq<Counted<K>>, c: nat)
    ensures WithCount([y] + t, c) == (if y.count == c then [y] else []) + WithCount(t, c)
  {
    assert ([y] + t)[0] == y && ([y] + t)[1..] == t;
  }

  /** Inserting `x` puts it ahead of the entries with its own count and keeps the order of all others. */
  lemma {:induction false} InsertDescWithCount<K>(x: Counted<K>, es: seq<Counted<K>>, c: nat)
    requires SortedDesc(es)
    ensures WithCount(InsertDesc(x, es), c) == (if x.count == c then [x] else []) + WithCount(es, c)
  {
    if es == [] || es[0].count <= x.count {
      assert InsertDesc(x, es) == [x] + es;
      WithCountCons(x, es, c);
    } else {
      var head, tail := es[0], es[1..];
      assert es == [head] + tail;
      assert SortedDesc(tail);
      var rest := InsertDesc(x, tail);
      assert InsertDesc(x, es) == [head] + rest;
      InsertDescWithCount(x, tail, c);
      WithCountCons(head, rest, c);
      WithCountCons(head, tail, c);
    }
  }

  /**
   * Stability (`Array.prototype.sort` is stable): the entries of each count
   * leave the sort in their input order, so ties keep first-seen order.
   */
  lemma {:induction false} SortDescStable<K>(es: seq<Counted<K>>, c: nat)
    ensures WithCount(SortDesc(es), c) == WithCount(es, c)
  {
    if es != [] {
      SortDescStable(es[1..], c);
      InsertDescWithCount(es[0], SortDesc(es[1..]), c);
    }
  }

  /** Sorting keeps the total of the counts. */
  lemma TotalCountPermutation<K>(a: seq<Counted<K>>, b: seq<Counted<K>>)
    requires multiset(a) == multiset(b)
    ensures TotalCount(a) == TotalCount(b)
    decreases |a|
  {
    if a != [] {
      var x := a[|a| - 1];
      var a' := a[..|a| - 1];
      assert x in multiset(b);
      var j :| 0 <= j < |b| && b[j] == x;
      var b' := b[..j] + b[j + 1..];
      MultisetRemoveLast(a, b, j);
      TotalCountPermutation(a', b');
      TotalCountRemove(b, j);
    }
  }

  /** Taking the last element off one side and an equal element off the other keeps the multisets equal. */
  lemma MultisetRemoveLast<T>(a: seq<T>, b: seq<T>, j: nat)
    requires multiset(a) == multiset(b) && a != []
    requires j < |b| && b[j] == a[|a| - 1]
    ensures multiset(a[..|a| - 1]) == multiset(b[..j] + b[j + 1..])
  {
    var x, a', b' := b[j], a[..|a| - 1], b[..j] + b[j + 1..];
    assert a == a' + [x];
    assert b == b[..j] + [x] + b[j + 1..];
    assert multiset(a) == multiset(a') + multiset{x};
    assert multiset(b) == multiset(b') + multiset{x};
    forall z
      ensures multiset(a')[z] == multiset(b')[z]
    {
      assert multiset(a)[z] == multiset(a')[z] + multiset{x}[z];
      assert multiset(b)[z] == multiset(b')[z] + multiset{x}[z];
    }
  }

  /** The total without the entry at `j` is the total less that entry's count. */
  lemma TotalCountRemove<K>(b: seq<Counted<K>>, j: nat)
    requires j < |b|
    ensures TotalCount(b) == TotalCount(b[..j] + b[j + 1..]) + b[j].count
  {
    var p, q := b[..j], b[j + 1..];
    var px := p + [b[j]];
    assert px == b[..j + 1];
    assert b == b[..j + 1] + q;
    TotalCountAppend(px, q);
    assert px[..|px| - 1] == p;
    assert TotalCount(px) == TotalCount(p) + b[j].count;
    TotalCountAppend(p, q);
  }

  lemma {:induction false} TotalCountAppend<K>(p: seq<Counted<K>>, q: seq<Counted<K>>)
    ensures TotalCount(p + q) == TotalCount(p) + TotalCount(q)
    decreases |q|
  {
    if q == [] {
      assert p + q == p;
    } else {
      var q' := q[..|q| - 1];
      TotalCountAppend(p, q');
      assert (p + q)[..|p + q| - 1] == p + q';
    }
  }
}
