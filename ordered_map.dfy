/**
 * Insertion-ordered maps and sets, as provided by the `indexmap` crate.
 * An `IndexMap<K, V>` is a sequence of entries whose keys are distinct;
 * an `IndexSet<T>` is a sequence without duplicates.
 */
module OrderedMap {
  import opened Wrappers

  function Keys<K, V>(m: seq<(K, V)>): (ks: seq<K>)
    ensures |ks| == |m|
    ensures forall i :: 0 <= i < |m| ==> ks[i] == m[i].0
  {
    seq(|m|, i requires 0 <= i < |m| => m[i].0)
  }

  /** The invariant of an `IndexMap`: no key occurs twice. */
  predicate NoDupKeys<K(==), V>(m: seq<(K, V)>) {
    forall i, j :: 0 <= i < j < |m| ==> m[i].0 != m[j].0
  }

  /** `IndexMap::get`: the value stored under `k`, if any. */
  function Get<K(==,!new), V>(m: seq<(K, V)>, k: K): (r: Option<V>)
    ensures r.None? <==> k !in Keys(m)
  {
    if m == [] then None
    else if m[0].0 == k then Some(m[0].1)
    else Get(m[1..], k)
  }

  /**
   * `IndexMap::insert`: a key already present keeps its position and takes
   * the new value; a new key is appended at the end.
   */
  function Insert<K(==,!new), V>(m: seq<(K, V)>, k: K, v: V): (r: seq<(K, V)>)
    ensures k in Keys(m) ==> Keys(r) == Keys(m)
    ensures k !in Keys(m) ==> r == m + [(k, v)]
  {
    if m == [] then [(k, v)]
    else if m[0].0 == k then [(k, v)] + m[1..]
    else
      var rest := Insert(m[1..], k, v);
      InsertStep(m, k, rest);
      [m[0]] + rest
  }

  lemma InsertStep<K, V>(m: seq<(K, V)>, k: K, rest: seq<(K, V)>)
    requires m != [] && m[0].0 != k
    ensures k in Keys(m) <==> k in Keys(m[1..])
    ensures Keys(rest) == Keys(m[1..]) ==> Keys([m[0]] + rest) == Keys(m)
    ensures forall e :: rest == m[1..] + [e] ==> [m[0]] + rest == m + [e]
  {
    assert Keys(m) == [m[0].0] + Keys(m[1..]);
    assert Keys([m[0]] + rest) == [m[0].0] + Keys(rest);
    forall e | rest == m[1..] + [e] ensures [m[0]] + rest == m + [e] {
      assert m == [m[0]] + m[1..];
    }
  }

  /** After `insert`, the key maps to the new value and every other key keeps its value. */
  lemma {:induction false} InsertGet<K(!new), V>(m: seq<(K, V)>, k: K, v: V, k': K)
    ensures Get(Insert(m, k, v), k') == if k' == k then Some(v) else Get(m, k')
    decreases |m|
  {
    if m != [] && m[0].0 != k {
      InsertGet(m[1..], k, v, k');
      assert ([m[0]] + Insert(m[1..], k, v))[1..] == Insert(m[1..], k, v);
    }
  }

  /** `insert` keeps the keys distinct. */
  lemma InsertNoDupKeys<K(!new), V>(m: seq<(K, V)>, k: K, v: V)
    requires NoDupKeys(m)
    ensures NoDupKeys(Insert(m, k, v))
  {
    var r := Insert(m, k, v);
    if k in Keys(m) {
      assert forall i :: 0 <= i < |r| ==> r[i].0 == Keys(r)[i] == Keys(m)[i] == m[i].0;
    }
  }

  /** `IndexMap::extend`: insert the entries of `b` one by one, in order. */
  function Extend<K(==,!new), V>(m: seq<(K, V)>, b: seq<(K, V)>): seq<(K, V)>
    decreases |b|
  {
    if b == [] then m
    else Insert(Extend(m, b[..|b| - 1]), b[|b| - 1].0, b[|b| - 1].1)
  }

  /** The keys of `bs` that are not among `ks`, in the order of `bs`. */
  function NewKeys<K(==,!new)>(ks: seq<K>, bs: seq<K>): (r: seq<K>)
    ensures forall x :: x in r <==> x in bs && x !in ks
    decreases |bs|
  {
    if bs == [] then []
    else NewKeys(ks, bs[..|bs| - 1]) + (if bs[|bs| - 1] in ks then [] else [bs[|bs| - 1]])
  }

  lemma {:induction false} ExtendNoDupKeys<K(!new), V>(m: seq<(K, V)>, b: seq<(K, V)>)
    requires NoDupKeys(m)
    ensures NoDupKeys(Extend(m, b))
    decreases |b|
  {
    if b != [] {
      ExtendNoDupKeys(m, b[..|b| - 1]);
      InsertNoDupKeys(Extend(m, b[..|b| - 1]), b[|b| - 1].0, b[|b| - 1].1);
    }
  }

  /** Splitting the last entry off a map without repeated keys. */
  lemma SplitLast<K, V>(b: seq<(K, V)>)
    requires NoDupKeys(b) && b != []
    ensures b == b[..|b| - 1] + [b[|b| - 1]]
    ensures NoDupKeys(b[..|b| - 1])
    ensures Keys(b) == Keys(b[..|b| - 1]) + [b[|b| - 1].0]
    ensures b[|b| - 1].0 !in Keys(b[..|b| - 1])
  {
    var n := |b| - 1;
    var p := b[..n];
    forall i | 0 <= i < n ensures Keys(p)[i] != b[n].0 { assert p[i] == b[i]; }
  }

  /**
   * After `extend`, the keys are those of `m` in their old order, followed by
   * the keys of `b` that were new, in the order of `b`.
   */
  lemma {:induction false} ExtendKeys<K(!new), V>(m: seq<(K, V)>, b: seq<(K, V)>)
    requires NoDupKeys(b)
    ensures Keys(Extend(m, b)) == Keys(m) + NewKeys(Keys(m), Keys(b))
    decreases |b|
  {
    if b != [] {
      var n := |b| - 1;
      var p := b[..n];
      var k := b[n].0;
      SplitLast(b);
      ExtendKeys(m, p);
      var e := Extend(m, p);
      var kb := Keys(b);
      assert kb[..n] == Keys(p) && kb[n] == k;
      var fresh0 := NewKeys(Keys(m), Keys(p));
      assert NewKeys(Keys(m), kb) == fresh0 + (if k in Keys(m) then [] else [k]);
      assert k !in fresh0;
      assert k in Keys(e) <==> k in Keys(m);
      if k !in Keys(m) {
        KeysConcat(e, [(k, b[n].1)]);
        assert Keys(Extend(m, b)) == (Keys(m) + fresh0) + [k];
      }
    }
  }

  /** After `extend`, a key of `b` maps to its value in `b`; any other key keeps its old value. */
  lemma {:induction false} ExtendGet<K(!new), V>(m: seq<(K, V)>, b: seq<(K, V)>, k: K)
    requires NoDupKeys(b)
    ensures Get(Extend(m, b), k) == if k in Keys(b) then Get(b, k) else Get(m, k)
    decreases |b|
  {
    if b != [] {
      var n := |b| - 1;
      var p := b[..n];
      SplitLast(b);
      ExtendGet(m, p, k);
      InsertGet(Extend(m, p), b[n].0, b[n].1, k);
      GetSnoc(p, b[n], k);
    }
  }

  lemma {:induction false} GetSnoc<K(!new), V>(p: seq<(K, V)>, e: (K, V), k: K)
    ensures Get(p + [e], k) == if k in Keys(p) then Get(p, k) else if e.0 == k then Some(e.1) else None
    decreases |p|
  {
    if p != [] {
      assert (p + [e])[1..] == p[1..] + [e];
      GetSnoc(p[1..], e, k);
      assert Keys(p) == [p[0].0] + Keys(p[1..]);
    }
  }

  /** `get` finds the value of the first entry with the key. */
  lemma {:induction false} GetAt<K(!new), V>(m: seq<(K, V)>, i: nat)
    requires i < |m| && forall j :: 0 <= j < i ==> m[j].0 != m[i].0
    ensures Get(m, m[i].0) == Some(m[i].1)
    decreases i
  {
    if i > 0 {
      assert forall j :: 0 <= j < i - 1 ==> m[1..][j] == m[j + 1];
      GetAt(m[1..], i - 1);
    }
  }

  /** When `b` brings only new keys, `extend` appends it unchanged. */
  lemma {:induction false} ExtendDisjoint<K(!new), V>(m: seq<(K, V)>, b: seq<(K, V)>)
    requires NoDupKeys(b)
    requires forall i :: 0 <= i < |b| ==> b[i].0 !in Keys(m)
    ensures Extend(m, b) == m + b
    decreases |b|
  {
    if b != [] {
      var n := |b| - 1;
      var p := b[..n];
      assert NoDupKeys(p);
      assert forall i :: 0 <= i < |p| ==> p[i].0 !in Keys(m);
      ExtendDisjoint(m, p);
      assert b[n].0 !in Keys(m + p) by {
        forall i | 0 <= i < |m + p| ensures (m + p)[i].0 != b[n].0 {
          if i >= |m| { assert (m + p)[i] == b[i - |m|]; }
        }
      }
      AppendNew(m + p, b[n]);
      ConcatSnoc(m, b);
    }
  }

  /** Extending by entries whose keys are all new, with no key repeated across both, is concatenation. */
  lemma ExtendUnique<K(!new), V>(a: seq<(K, V)>, b: seq<(K, V)>)
    requires NoDupKeys(a + b)
    ensures NoDupKeys(a) && NoDupKeys(b)
    ensures Extend(a, b) == a + b
  {
    var ab := a + b;
    assert forall i :: 0 <= i < |a| ==> a[i] == ab[i];
    assert forall i :: 0 <= i < |b| ==> b[i] == ab[|a| + i];
    forall i | 0 <= i < |b| ensures b[i].0 !in Keys(a) {
      forall j | 0 <= j < |a| ensures a[j].0 != b[i].0 { assert ab[j] == a[j] && ab[|a| + i] == b[i]; }
    }
    ExtendDisjoint(a, b);
  }

  /** A map's keys are distinct exactly when, as a sequence, its key list has no duplicates. */
  lemma DistinctKeys<K, V>(m: seq<(K, V)>)
    ensures NoDupKeys(m) <==> Distinct(Keys(m))
  {
  }

  lemma KeysConcat<K, V>(a: seq<(K, V)>, b: seq<(K, V)>)
    ensures Keys(a + b) == Keys(a) + Keys(b)
  {
  }

  /** The sequences of `ss` laid end to end. */
  function Flatten<T>(ss: seq<seq<T>>): seq<T>
    decreases |ss|
  {
    if ss == [] then [] else Flatten(ss[..|ss| - 1]) + ss[|ss| - 1]
  }

  /** The maps of `ms` merged in order, each with `IndexMap::extend`. */
  function FoldExtend<K(==,!new), V>(ms: seq<seq<(K, V)>>): seq<(K, V)>
    decreases |ms|
  {
    if ms == [] then [] else Extend(FoldExtend(ms[..|ms| - 1]), ms[|ms| - 1])
  }

  lemma {:induction false} FoldExtendNoDupKeys<K(!new), V>(ms: seq<seq<(K, V)>>)
    ensures NoDupKeys(FoldExtend(ms))
    decreases |ms|
  {
    if ms != [] {
      FoldExtendNoDupKeys(ms[..|ms| - 1]);
      ExtendNoDupKeys(FoldExtend(ms[..|ms| - 1]), ms[|ms| - 1]);
    }
  }

  /** When no key occurs twice among all the maps, merging them in order lays them end to end. */
  lemma {:induction false} FoldExtendFlatten<K(!new), V>(ms: seq<seq<(K, V)>>)
    requires NoDupKeys(Flatten(ms))
    ensures FoldExtend(ms) == Flatten(ms)
    decreases |ms|
  {
    if ms != [] {
      var init := ms[..|ms| - 1];
      ExtendUnique(Flatten(init), ms[|ms| - 1]);
      FoldExtendFlatten(init);
    }
  }

  /** The keys of maps laid end to end are their key lists laid end to end. */
  lemma {:induction false} FlattenKeys<K, V>(ms: seq<seq<(K, V)>>, kss: seq<seq<K>>)
    requires |ms| == |kss| && forall i :: 0 <= i < |ms| ==> Keys(ms[i]) == kss[i]
    ensures Keys(Flatten(ms)) == Flatten(kss)
    decreases |ms|
  {
    if ms != [] {
      var n := |ms| - 1;
      FlattenKeys(ms[..n], kss[..n]);
      KeysConcat(Flatten(ms[..n]), ms[n]);
    }
  }

  /** The keys of single-entry maps laid end to end. */
  lemma {:induction false} FlattenSingleKeys<K, V>(ms: seq<seq<(K, V)>>, ks: seq<K>)
    requires |ms| == |ks| && forall i :: 0 <= i < |ms| ==> Keys(ms[i]) == [ks[i]]
    ensures Keys(Flatten(ms)) == ks
    decreases |ms|
  {
    if ms != [] {
      var n := |ms| - 1;
      FlattenSingleKeys(ms[..n], ks[..n]);
      KeysConcat(Flatten(ms[..n]), ms[n]);
      assert ks == ks[..n] + [ks[n]];
    }
  }

  /** The keys of maps laid end to end, when map `i` holds the slice `starts[i]..starts[i + 1]` of `names`. */
  lemma {:induction false} FlattenSliceKeys<K, V>(ms: seq<seq<(K, V)>>, names: seq<K>, starts: seq<nat>)
    requires |starts| == |ms| + 1 && starts[0] == 0
    requires forall i, j :: 0 <= i <= j <= |ms| ==> starts[i] <= starts[j]
    requires starts[|ms|] <= |names|
    requires forall i :: 0 <= i < |ms| ==> Keys(ms[i]) == names[starts[i]..starts[i + 1]]
    ensures Keys(Flatten(ms)) == names[..starts[|ms|]]
    decreases |ms|
  {
    if ms != [] {
      var n := |ms| - 1;
      FlattenSliceKeys(ms[..n], names, starts[..n + 1]);
      KeysConcat(Flatten(ms[..n]), ms[n]);
      assert names[..starts[n + 1]] == names[..starts[n]] + names[starts[n]..starts[n + 1]];
    }
  }

  /** Merging single-entry maps with distinct keys `ks` yields exactly those keys, in order. */
  lemma FoldSingleKeys<K(!new), V>(ms: seq<seq<(K, V)>>, ks: seq<K>)
    requires |ms| == |ks| && Distinct(ks)
    requires forall i :: 0 <= i < |ms| ==> Keys(ms[i]) == [ks[i]]
    ensures FoldExtend(ms) == Flatten(ms) && Keys(FoldExtend(ms)) == ks
  {
    FlattenSingleKeys(ms, ks);
    DistinctKeys(Flatten(ms));
    FoldExtendFlatten(ms);
  }

  /** Merging maps that hold consecutive runs of the distinct `names` yields exactly `names`, in order. */
  lemma FoldSliceKeys<K(!new), V>(ms: seq<seq<(K, V)>>, names: seq<K>, starts: seq<nat>)
    requires |starts| == |ms| + 1 && starts[0] == 0 && starts[|ms|] == |names| && Distinct(names)
    requires forall i, j :: 0 <= i <= j <= |ms| ==> starts[i] <= starts[j]
    requires forall i :: 0 <= i < |ms| ==> Keys(ms[i]) == names[starts[i]..starts[i + 1]]
    ensures FoldExtend(ms) == Flatten(ms) && Keys(FoldExtend(ms)) == names
  {
    FlattenSliceKeys(ms, names, starts);
    assert names[..|names|] == names;
    DistinctKeys(Flatten(ms));
    FoldExtendFlatten(ms);
  }

  lemma ConcatSnoc<T>(m: seq<T>, b: seq<T>)
    requires b != []
    ensures m + b[..|b| - 1] + [b[|b| - 1]] == m + b
  {
    assert b[..|b| - 1] + [b[|b| - 1]] == b;
  }

  lemma AppendNew<K(!new), V>(m: seq<(K, V)>, e: (K, V))
    requires e.0 !in Keys(m)
    ensures Insert(m, e.0, e.1) == m + [e]
  {
  }

  /** The invariant of an `IndexSet`: no element occurs twice. */
  predicate Distinct<T(==)>(s: seq<T>) {
    forall i, j :: 0 <= i < j < |s| ==> s[i] != s[j]
  }

  /** `IndexSet::insert`: an element already present is not added again. */
  function SetInsert<T(==,!new)>(s: seq<T>, x: T): (r: seq<T>)
    ensures x in r
    ensures Distinct(s) ==> Distinct(r)
    ensures x in s ==> r == s
    ensures x !in s ==> r == s + [x]
  {
    if x in s then s else s + [x]
  }

  /** Collecting a sequence into an `IndexSet`: first occurrences, in order. */
  function Collect<T(==,!new)>(xs: seq<T>): (r: seq<T>)
    ensures Distinct(r)
    ensures forall x :: x in r <==> x in xs
    decreases |xs|
  {
    if xs == [] then [] else SetInsert(Collect(xs[..|xs| - 1]), xs[|xs| - 1])
  }

  /** A sequence without duplicates is collected into an `IndexSet` unchanged. */
  lemma {:induction false} CollectDistinct<T(!new)>(xs: seq<T>)
    requires Distinct(xs)
    ensures Collect(xs) == xs
    decreases |xs|
  {
    if xs != [] {
      var n := |xs| - 1;
      assert Distinct(xs[..n]);
      CollectDistinct(xs[..n]);
      assert xs[n] !in xs[..n];
      assert xs[..n] + [xs[n]] == xs;
    }
  }

  /** The position at which `x` first occurs in `xs`. */
  function FirstIndex<T(==)>(xs: seq<T>, x: T): (i: nat)
    requires x in xs
    ensures i < |xs| && xs[i] == x && x !in xs[..i]
  {
    if xs[0] == x then 0 else (assert xs[1..][..FirstIndex(xs[1..], x)] == xs[1..1 + FirstIndex(xs[1..], x)]; 1 + FirstIndex(xs[1..], x))
  }

  /** A position holding `x` with no `x` before it is the first position of `x`. */
  lemma FirstIndexUnique<T>(xs: seq<T>, x: T, i: nat)
    requires i < |xs| && xs[i] == x && x !in xs[..i]
    ensures FirstIndex(xs, x) == i
  {
    var k := FirstIndex(xs, x);
    assert forall p :: 0 <= p < i ==> xs[..i][p] == xs[p];
    assert forall p :: 0 <= p < k ==> xs[..k][p] == xs[p];
  }

  /** Appending to `xs` leaves the first position of an element already in `xs` where it was. */
  lemma FirstIndexSnoc<T>(xs: seq<T>, y: T, x: T)
    requires x in xs
    ensures FirstIndex(xs + [y], x) == FirstIndex(xs, x)
  {
    var k := FirstIndex(xs, x);
    assert (xs + [y])[..k] == xs[..k];
    FirstIndexUnique(xs + [y], x, k);
  }

  /** An element occurring again does not change the collected set. */
  lemma CollectRepeat<T(!new)>(xs: seq<T>, x: T)
    requires x in xs
    ensures Collect(xs + [x]) == Collect(xs)
  {
    assert (xs + [x])[..|xs|] == xs;
  }

  /**
   * `r` is `xs` collected into an `IndexSet`: the elements of `xs`, each
   * once, ordered by the position where each first occurs in `xs`.
   */
  predicate IsCollected<T(==,!new)>(xs: seq<T>, r: seq<T>) {
    && (forall x :: x in r ==> x in xs) && (forall x :: x in xs ==> x in r)
    && Distinct(r)
    && forall i, j :: 0 <= i < j < |r| ==> FirstIndex(xs, r[i]) < FirstIndex(xs, r[j])
  }

  /** `Collect` keeps each element at its first occurrence, in order of first occurrence. */
  lemma {:induction false} CollectOrder<T(!new)>(xs: seq<T>)
    ensures forall i, j :: 0 <= i < j < |Collect(xs)| ==> FirstIndex(xs, Collect(xs)[i]) < FirstIndex(xs, Collect(xs)[j])
    ensures IsCollected(xs, Collect(xs))
    decreases |xs|
  {
    if xs != [] {
      var n := |xs| - 1;
      var init, last := xs[..n], xs[n];
      assert xs == init + [last];
      CollectOrder(init);
      var r0 := Collect(init);
      var r := Collect(xs);
      forall e | e in init ensures FirstIndex(xs, e) == FirstIndex(init, e) {
        FirstIndexSnoc(init, last, e);
      }
      if last !in init {
        assert FirstIndex(xs, last) == n;
      }
      forall i, j | 0 <= i < j < |r| ensures FirstIndex(xs, r[i]) < FirstIndex(xs, r[j]) {
        assert r[i] in init;
        if j < |r0| {
          assert r[i] == r0[i] && r[j] == r0[j] && r[j] in init;
          assert FirstIndex(init, r0[i]) < FirstIndex(init, r0[j]);
        } else {
          assert r[j] == last && last !in init;
        }
      }
    }
  }

  /** Every value of an extended map comes from the old map or from the added entries. */
  lemma {:induction false} ExtendValuesFrom<K(!new), V(!new)>(m: seq<(K, V)>, b: seq<(K, V)>, i: nat)
    requires i < |Extend(m, b)|
    ensures (exists k :: 0 <= k < |m| && Extend(m, b)[i].1 == m[k].1)
         || (exists k :: 0 <= k < |b| && Extend(m, b)[i].1 == b[k].1)
    decreases |b|
  {
    if b == [] {
      assert Extend(m, b)[i].1 == m[i].1;
    } else {
      var n := |b| - 1;
      var e := Extend(m, b[..n]);
      InsertValuesFrom(e, b[n].0, b[n].1, i);
      if Extend(m, b)[i].1 == b[n].1 {
        assert 0 <= n < |b|;
      } else {
        var k :| 0 <= k < |e| && Extend(m, b)[i].1 == e[k].1;
        ExtendValuesFrom(m, b[..n], k);
        if exists k' :: 0 <= k' < n && e[k].1 == b[..n][k'].1 {
          var k' :| 0 <= k' < n && e[k].1 == b[..n][k'].1;
          assert b[..n][k'] == b[k'];
        }
      }
    }
  }

  lemma {:induction false} InsertValuesFrom<K(!new), V(!new)>(m: seq<(K, V)>, key: K, v: V, i: nat)
    requires i < |Insert(m, key, v)|
    ensures Insert(m, key, v)[i].1 == v || exists k :: 0 <= k < |m| && Insert(m, key, v)[i].1 == m[k].1
    decreases |m|
  {
    if m != [] && m[0].0 != key && i > 0 {
      InsertValuesFrom(m[1..], key, v, i - 1);
      if Insert(m, key, v)[i].1 != v {
        var k :| 0 <= k < |m[1..]| && Insert(m[1..], key, v)[i - 1].1 == m[1..][k].1;
        assert m[1..][k] == m[k + 1];
      }
    }
  }
}
