/** `mode` (app.js:35-53): counts the numbers in a plain object keyed by
    the numbers' string forms, then walks the object's keys with
    `for..in`, keeping every key whose count equals the running maximum.

    The walk visits keys in the order JavaScript's ordinary objects
    enumerate them: keys that are array indices (the integers 0 to
    2^32 - 2) first, in ascending numeric order, then every other key in
    the order it was first assigned, which here is the order of first
    occurrence in the input. Distinct numbers have distinct string forms,
    so keys stand for numbers throughout. */
module Frequency {
  import opened Seqs
  import opened Ordering
  import opened Statistics

  /** The string form of `x` is an array index. */
  predicate IsArrayIndex(x: real) {
    x == x.Floor as real && 0.0 <= x <= 4294967294.0
  }

  predicate IsOtherKey(x: real) {
    !IsArrayIndex(x)
  }

  /** `a` is enumerated before `b` by `for..in` on an object whose keys
      were first assigned in the order of their first occurrence in
      `order`. */
  predicate EnumeratedBefore(order: seq<real>, a: real, b: real) {
    if IsArrayIndex(a) then IsOtherKey(b) || a < b
    else IsOtherKey(b) && a in order && b in order && FirstIndex(order, a) < FirstIndex(order, b)
  }

  /** The `frequency` object: its keys in the order they were created and
      the count stored under each. */
  datatype Tally = Tally(keys: seq<real>, counts: multiset<real>)

  /** `frequency[num] = (frequency[num] || 0) + 1`. */
  function Record(t: Tally, num: real): Tally {
    Tally(if num in t.counts then t.keys else t.keys + [num], t.counts + multiset{num})
  }

  /** `nums.forEach(...)` over `Record`: every distinct number becomes a key
      once, at its first occurrence, and counts its occurrences. */
  function Tabulate(xs: seq<real>): (t: Tally)
    ensures t.counts == multiset(xs)
    ensures forall v :: v in t.keys <==> v in xs
    ensures NoDuplicates(t.keys)
    ensures forall i, j :: 0 <= i < j < |t.keys| ==> FirstIndex(xs, t.keys[i]) < FirstIndex(xs, t.keys[j])
    decreases |xs|
  {
    if |xs| == 0 then Tally([], multiset{})
    else
      var n := |xs| - 1;
      var x := xs[n];
      var prev := Tabulate(xs[..n]);
      assert xs == xs[..n] + [x];
      var t := Record(prev, x);
      assert forall k :: k in prev.keys ==> FirstIndex(xs, k) == FirstIndex(xs[..n], k) by {
        forall k | k in prev.keys
          ensures FirstIndex(xs, k) == FirstIndex(xs[..n], k)
        {
          FirstIndexPrefix(xs, n, k);
        }
      }
      if x in prev.counts then
        t
      else
        assert x !in xs[..n];
        assert FirstIndex(xs, x) == n;
        assert forall i :: 0 <= i < |prev.keys| ==> t.keys[i] == prev.keys[i];
        assert forall i :: 0 <= i < |prev.keys| ==> FirstIndex(xs, prev.keys[i]) < n;
        t
  }

  /** The order `for..in` visits the keys created in the order `keys`:
      array-index keys ascending, then the others in creation order. */
  function EnumerationOrder(keys: seq<real>): (r: seq<real>)
    ensures multiset(r) == multiset(keys)
    ensures NoDuplicates(keys) ==> forall i, j :: 0 <= i < j < |r| ==> EnumeratedBefore(keys, r[i], r[j])
  {
    EnumerationOrderFacts(keys);
    Sort(Filter(IsArrayIndex, keys)) + Filter(IsOtherKey, keys)
  }

  /** The contract of `EnumerationOrder`, proved for its body. */
  lemma EnumerationOrderFacts(keys: seq<real>)
    ensures var r := Sort(Filter(IsArrayIndex, keys)) + Filter(IsOtherKey, keys);
      && multiset(r) == multiset(keys)
      && (NoDuplicates(keys) ==> forall i, j :: 0 <= i < j < |r| ==> EnumeratedBefore(keys, r[i], r[j]))
  {
    var sorted := Sort(Filter(IsArrayIndex, keys));
    var others := Filter(IsOtherKey, keys);
    FilterSplit(IsArrayIndex, IsOtherKey, keys);
    assert multiset(sorted + others) == multiset(sorted) + multiset(others);
    if NoDuplicates(keys) {
      EnumerationOrderAscends(keys);
    }
  }

  /** Each pair of keys in the enumeration comes in `for..in` order. */
  lemma EnumerationOrderAscends(keys: seq<real>)
    requires NoDuplicates(keys)
    ensures var r := Sort(Filter(IsArrayIndex, keys)) + Filter(IsOtherKey, keys);
      forall i, j :: 0 <= i < j < |r| ==> EnumeratedBefore(keys, r[i], r[j])
  {
    var sorted := Sort(Filter(IsArrayIndex, keys));
    var others := Filter(IsOtherKey, keys);
    forall i, j | 0 <= i < j < |sorted| ensures EnumeratedBefore(keys, sorted[i], sorted[j]) {
      IndexKeysAscend(keys, i, j);
    }
    forall i, j | 0 <= i < j < |others| ensures EnumeratedBefore(keys, others[i], others[j]) {
      OtherKeysKeepCreationOrder(keys, i, j);
    }
    forall i | 0 <= i < |sorted| ensures IsArrayIndex(sorted[i]) {
      IndexKeyIsIndex(keys, i);
    }
    forall j | 0 <= j < |others| ensures IsOtherKey(others[j]) {
      assert others[j] in others;
    }
    ConcatEnumerated(keys, sorted, others);
  }

  /** Array-index keys followed by other keys, each part in enumeration
      order, are in enumeration order. */
  lemma ConcatEnumerated(keys: seq<real>, a: seq<real>, b: seq<real>)
    requires forall i, j :: 0 <= i < j < |a| ==> EnumeratedBefore(keys, a[i], a[j])
    requires forall i, j :: 0 <= i < j < |b| ==> EnumeratedBefore(keys, b[i], b[j])
    requires forall i :: 0 <= i < |a| ==> IsArrayIndex(a[i])
    requires forall j :: 0 <= j < |b| ==> IsOtherKey(b[j])
    ensures forall i, j :: 0 <= i < j < |a + b| ==> EnumeratedBefore(keys, (a + b)[i], (a + b)[j])
  {
    var r := a + b;
    forall i, j | 0 <= i < j < |r| ensures EnumeratedBefore(keys, r[i], r[j]) {
      if j < |a| {
        assert r[i] == a[i] && r[j] == a[j];
      } else if i >= |a| {
        assert r[i] == b[i - |a|] && r[j] == b[j - |a|];
      } else {
        assert r[i] == a[i] && r[j] == b[j - |a|];
      }
    }
  }

  /** Sorting the array-index keys keeps only array-index keys. */
  lemma IndexKeyIsIndex(keys: seq<real>, i: nat)
    requires i < |Sort(Filter(IsArrayIndex, keys))|
    ensures IsArrayIndex(Sort(Filter(IsArrayIndex, keys))[i])
  {
    var indices := Filter(IsArrayIndex, keys);
    assert Sort(indices)[i] in multiset(indices);
  }

  /** The array-index keys, sorted, are strictly ascending when no key
      repeats. */
  lemma IndexKeysAscend(keys: seq<real>, i: nat, j: nat)
    requires NoDuplicates(keys)
    requires i < j < |Sort(Filter(IsArrayIndex, keys))|
    ensures var sorted := Sort(Filter(IsArrayIndex, keys));
      IsArrayIndex(sorted[i]) && sorted[i] < sorted[j]
  {
    var indices := Filter(IsArrayIndex, keys);
    var sorted := Sort(indices);
    FilterKeepsDistinct(IsArrayIndex, keys);
    NoDuplicatesPermutation(indices, sorted);
    assert sorted[i] in multiset(indices);
    assert sorted[i] <= sorted[j] && sorted[i] != sorted[j];
  }

  /** The other keys keep the order in which they were created. */
  lemma OtherKeysKeepCreationOrder(keys: seq<real>, i: nat, j: nat)
    requires NoDuplicates(keys)
    requires i < j < |Filter(IsOtherKey, keys)|
    ensures var others := Filter(IsOtherKey, keys);
      && IsOtherKey(others[i]) && IsOtherKey(others[j])
      && others[i] in keys && others[j] in keys
      && FirstIndex(keys, others[i]) < FirstIndex(keys, others[j])
  {
    forall p, q | 0 <= p < q < |keys| ensures FirstIndex(keys, keys[p]) < FirstIndex(keys, keys[q]) {
      FirstIndexOfDistinct(keys, p);
      FirstIndexOfDistinct(keys, q);
    }
    var createdBefore := (a, b) => a in keys && b in keys && FirstIndex(keys, a) < FirstIndex(keys, b);
    FilterPairwise(IsOtherKey, keys, createdBefore);
    var others := Filter(IsOtherKey, keys);
    assert others[i] in others && others[j] in others;
    assert createdBefore(others[i], others[j]);
  }

  /** The state of the `for..in` loop: `modes` and `maxFreq`. */
  datatype ScanState = ScanState(modes: seq<real>, maxFreq: nat)

  /** One iteration of the loop body (app.js:44-49). */
  function Step(st: ScanState, key: real, counts: multiset<real>): ScanState {
    var c := counts[key];
    if c > st.maxFreq then ScanState([key], c)
    else if c == st.maxFreq then ScanState(st.modes + [key], st.maxFreq)
    else st
  }

  /** The keys, in order, whose count is `m`. */
  function WithCount(keys: seq<real>, counts: multiset<real>, m: nat): seq<real>
    decreases |keys|
  {
    if |keys| == 0 then []
    else
      var n := |keys| - 1;
      WithCount(keys[..n], counts, m) + (if counts[keys[n]] == m then [keys[n]] else [])
  }

  /** `WithCount` keeps exactly the keys whose count is `m`. */
  lemma {:induction false} WithCountMembers(keys: seq<real>, counts: multiset<real>, m: nat)
    ensures forall k :: k in WithCount(keys, counts, m) <==> k in keys && counts[k] == m
    decreases |keys|
  {
    if |keys| > 0 {
      var n := |keys| - 1;
      WithCountMembers(keys[..n], counts, m);
      assert keys == keys[..n] + [keys[n]];
    }
  }

  /** When every count is below `m`, no key has count `m`. */
  lemma {:induction false} WithCountNone(keys: seq<real>, counts: multiset<real>, m: nat)
    requires forall i :: 0 <= i < |keys| ==> counts[keys[i]] < m
    ensures WithCount(keys, counts, m) == []
    decreases |keys|
  {
    if |keys| > 0 {
      var n := |keys| - 1;
      var prefix := keys[..n];
      assert forall i :: 0 <= i < |prefix| ==> counts[prefix[i]] < m by {
        forall i | 0 <= i < |prefix| ensures counts[prefix[i]] < m {
          assert prefix[i] == keys[i];
        }
      }
      WithCountNone(prefix, counts, m);
      assert counts[keys[n]] < m;
    }
  }

  /** Selecting keys by count keeps their relative order. */
  lemma {:induction false} WithCountPairwise(keys: seq<real>, counts: multiset<real>, m: nat, before: (real, real) -> bool)
    requires forall i, j :: 0 <= i < j < |keys| ==> before(keys[i], keys[j])
    ensures forall i, j :: 0 <= i < j < |WithCount(keys, counts, m)| ==>
      before(WithCount(keys, counts, m)[i], WithCount(keys, counts, m)[j])
    decreases |keys|
  {
    if |keys| > 0 {
      var n := |keys| - 1;
      var prefix := keys[..n];
      assert forall i, j :: 0 <= i < j < |prefix| ==> before(prefix[i], prefix[j]) by {
        forall i, j | 0 <= i < j < |prefix| ensures before(prefix[i], prefix[j]) {
          assert prefix[i] == keys[i] && prefix[j] == keys[j];
        }
      }
      WithCountPairwise(prefix, counts, m, before);
      WithCountMembers(prefix, counts, m);
      var w := WithCount(prefix, counts, m);
      var r := WithCount(keys, counts, m);
      if counts[keys[n]] == m {
        forall i, j | 0 <= i < j < |r| ensures before(r[i], r[j]) {
          if j == |w| {
            assert r[i] == w[i] && r[i] in prefix;
            var p :| 0 <= p < |prefix| && prefix[p] == r[i];
            assert keys[p] == r[i];
          } else {
            assert r[i] == w[i] && r[j] == w[j];
          }
        }
      }
    }
  }

  /** The loop over `keys`, from `maxFreq = 0` and `modes = []`. It leaves
      in `maxFreq` the greatest count, and in `modes` exactly the keys
      with that count, in visiting order. */
  function Scan(keys: seq<real>, counts: multiset<real>): (st: ScanState)
    ensures forall i :: 0 <= i < |keys| ==> counts[keys[i]] <= st.maxFreq
    ensures |keys| > 0 ==> exists i :: 0 <= i < |keys| && counts[keys[i]] == st.maxFreq
    ensures |keys| == 0 ==> st.maxFreq == 0
    ensures st.modes == WithCount(keys, counts, st.maxFreq)
    decreases |keys|
  {
    if |keys| == 0 then ScanState([], 0)
    else
      var n := |keys| - 1;
      var prev := Scan(keys[..n], counts);
      ScanStepFacts(keys[..n], keys[n], counts, prev);
      assert keys == keys[..n] + [keys[n]];
      Step(prev, keys[n], counts)
  }

  /** What the loop knows after visiting `keys`: `maxFreq` is their
      greatest count and `modes` the keys with that count. */
  ghost predicate Scanned(keys: seq<real>, counts: multiset<real>, st: ScanState) {
    && (forall i :: 0 <= i < |keys| ==> counts[keys[i]] <= st.maxFreq)
    && (|keys| > 0 ==> exists i :: 0 <= i < |keys| && counts[keys[i]] == st.maxFreq)
    && (|keys| == 0 ==> st.maxFreq == 0)
    && st.modes == WithCount(keys, counts, st.maxFreq)
  }

  /** One iteration of the loop body keeps `Scanned`. */
  lemma ScanStepFacts(prefix: seq<real>, key: real, counts: multiset<real>, prev: ScanState)
    requires Scanned(prefix, counts, prev)
    ensures Scanned(prefix + [key], counts, Step(prev, key, counts))
  {
    var keys := prefix + [key];
    var n := |prefix|;
    var st := Step(prev, key, counts);
    assert keys[..n] == prefix;
    assert keys[n] == key;
    forall i | 0 <= i < n ensures keys[i] == prefix[i] { }
    if counts[key] > prev.maxFreq {
      WithCountNone(prefix, counts, counts[key]);
      assert st.modes == WithCount(keys, counts, st.maxFreq);
      assert counts[keys[n]] == st.maxFreq;
    } else if counts[key] == prev.maxFreq {
      assert st.modes == WithCount(keys, counts, st.maxFreq);
      assert counts[keys[n]] == st.maxFreq;
    } else {
      assert st.modes == WithCount(keys, counts, st.maxFreq);
      assert n > 0;
      var i :| 0 <= i < n && counts[prefix[i]] == st.maxFreq;
      assert counts[keys[i]] == st.maxFreq;
    }
  }

  /** The greatest number of times any one value occurs in `xs`. */
  function MaxFrequency(xs: seq<real>): (m: nat)
    ensures forall v :: v in xs ==> multiset(xs)[v] <= m
    ensures |xs| > 0 ==> exists i :: 0 <= i < |xs| && multiset(xs)[xs[i]] == m
    ensures |xs| == 0 ==> m == 0
  {
    GreatestCount(xs, multiset(xs))
  }

  /** The greatest count among `vals`. */
  function GreatestCount(vals: seq<real>, counts: multiset<real>): (m: nat)
    ensures forall v :: v in vals ==> counts[v] <= m
    ensures |vals| > 0 ==> exists i :: 0 <= i < |vals| && counts[vals[i]] == m
    ensures |vals| == 0 ==> m == 0
  {
    if |vals| == 0 then 0
    else
      var rest := GreatestCount(vals[1..], counts);
      assert vals == [vals[0]] + vals[1..];
      if counts[vals[0]] >= rest then
        counts[vals[0]]
      else
        assert |vals[1..]| > 0;
        var i :| 0 <= i < |vals[1..]| && counts[vals[1..][i]] == rest;
        assert vals[i + 1] == vals[1..][i];
        rest
  }

  /** The array `modes` that `mode` builds before unwrapping it. */
  function ModeList(xs: seq<real>): (r: seq<real>)
    ensures forall v :: v in r <==> v in xs && multiset(xs)[v] == MaxFrequency(xs)
    ensures forall i, j :: 0 <= i < j < |r| ==> EnumeratedBefore(xs, r[i], r[j])
    ensures NoDuplicates(r)
    ensures |xs| > 0 ==> |r| > 0
  {
    ModeListFacts(xs);
    Scan(EnumerationOrder(Tabulate(xs).keys), Tabulate(xs).counts).modes
  }

  /** The contract of `ModeList`, proved for its body. */
  lemma ModeListFacts(xs: seq<real>)
    ensures var r := Scan(EnumerationOrder(Tabulate(xs).keys), Tabulate(xs).counts).modes;
      && (forall v :: v in r <==> v in xs && multiset(xs)[v] == MaxFrequency(xs))
      && (forall i, j :: 0 <= i < j < |r| ==> EnumeratedBefore(xs, r[i], r[j]))
      && NoDuplicates(r)
      && (|xs| > 0 ==> |r| > 0)
  {
    var t := Tabulate(xs);
    var keys := EnumerationOrder(t.keys);
    KeysAreValues(xs);
    ScanOfValues(xs, keys, t.counts);
    ModesInEnumerationOrder(xs);
    var r := Scan(keys, t.counts).modes;
    assert NoDuplicates(r) by {
      forall i, j | 0 <= i < j < |r| ensures r[i] != r[j] {
        assert EnumeratedBefore(xs, r[i], r[j]);
      }
    }
  }

  /** The keys the loop visits are exactly the input's distinct values. */
  lemma KeysAreValues(xs: seq<real>)
    ensures var keys := EnumerationOrder(Tabulate(xs).keys);
      && (forall i :: 0 <= i < |keys| ==> keys[i] in xs)
      && (forall i :: 0 <= i < |xs| ==> xs[i] in keys)
  {
    var t := Tabulate(xs);
    var keys := EnumerationOrder(t.keys);
    forall i | 0 <= i < |keys| ensures keys[i] in xs {
      var v := keys[i];
      assert v in multiset(keys);
      assert v in t.keys;
    }
    forall i | 0 <= i < |xs| ensures xs[i] in keys {
      var v := xs[i];
      assert v in t.keys;
      assert v in multiset(t.keys);
    }
  }

  /** Scanning any arrangement of the distinct values of `xs` against
      their counts finds the greatest frequency, and keeps exactly the
      values that have it. */
  lemma ScanOfValues(xs: seq<real>, keys: seq<real>, counts: multiset<real>)
    requires counts == multiset(xs)
    requires forall i :: 0 <= i < |keys| ==> keys[i] in xs
    requires forall i :: 0 <= i < |xs| ==> xs[i] in keys
    ensures Scan(keys, counts).maxFreq == MaxFrequency(xs)
    ensures forall v :: v in Scan(keys, counts).modes <==> v in xs && counts[v] == MaxFrequency(xs)
    ensures |xs| > 0 ==> |Scan(keys, counts).modes| > 0
  {
    var st := Scan(keys, counts);
    var mf := MaxFrequency(xs);
    WithCountMembers(keys, counts, st.maxFreq);
    if |xs| > 0 {
      var i :| 0 <= i < |xs| && multiset(xs)[xs[i]] == mf;
      var v := xs[i];
      assert v in keys;
      var p :| 0 <= p < |keys| && keys[p] == v;
      assert counts[keys[p]] <= st.maxFreq;
      var q :| 0 <= q < |keys| && counts[keys[q]] == st.maxFreq;
      var w := keys[q];
      assert w in xs;
      assert multiset(xs)[w] <= mf;
      assert w in st.modes;
    }
    forall v ensures v in st.modes <==> v in xs && counts[v] == mf {
      if v in keys {
        var p :| 0 <= p < |keys| && keys[p] == v;
        assert keys[p] in xs;
      }
      if v in xs {
        var p :| 0 <= p < |xs| && xs[p] == v;
        assert xs[p] in keys;
      }
    }
  }

  /** The modes come out in the order `for..in` visits them. */
  lemma ModesInEnumerationOrder(xs: seq<real>)
    ensures var r := Scan(EnumerationOrder(Tabulate(xs).keys), Tabulate(xs).counts).modes;
      forall i, j :: 0 <= i < j < |r| ==> EnumeratedBefore(xs, r[i], r[j])
  {
    var t := Tabulate(xs);
    var keys := EnumerationOrder(t.keys);
    var st := Scan(keys, t.counts);
    WithCountPairwise(keys, t.counts, st.maxFreq, (a, b) => EnumeratedBefore(t.keys, a, b));
    var r := st.modes;
    forall i, j | 0 <= i < j < |r| ensures EnumeratedBefore(xs, r[i], r[j]) {
      var a, b := r[i], r[j];
      assert EnumeratedBefore(t.keys, a, b);
      if IsOtherKey(a) {
        var p, q := FirstIndex(t.keys, a), FirstIndex(t.keys, b);
        assert t.keys[p] == a && t.keys[q] == b;
      }
    }
  }

  /** `mode(nums)`: the modes, unwrapped to a bare number when there is
      exactly one (app.js:52). An empty input gives an empty array. */
  function Mode(xs: seq<real>): (r: Value)
    ensures forall v :: v in Items(r) <==> v in xs && multiset(xs)[v] == MaxFrequency(xs)
    ensures forall i, j :: 0 <= i < j < |Items(r)| ==> EnumeratedBefore(xs, Items(r)[i], Items(r)[j])
    ensures NoDuplicates(Items(r))
    ensures r.List? ==> |r.items| != 1
    ensures |xs| > 0 ==> |Items(r)| > 0
    ensures |xs| == 0 ==> r == List([])
  {
    var modes := ModeList(xs);
    if |modes| == 1 then Scalar(modes[0]) else List(modes)
  }
}
