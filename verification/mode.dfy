/** Properties of `mode` (app.js:35-53) that relate several calls or pin
    down its result on particular inputs. */
module ModeProperties {
  import opened Seqs
  import opened Ordering
  import opened Statistics
  import opened Frequency

  /** Exactly one value of `xs` occurs the greatest number of times. */
  ghost predicate SingleMode(xs: seq<real>) {
    && |xs| > 0
    && forall a, b ::
         a in xs && b in xs && multiset(xs)[a] == MaxFrequency(xs) && multiset(xs)[b] == MaxFrequency(xs) ==> a == b
  }

  /** `mode` returns a bare number exactly when a single value attains the
      greatest frequency; otherwise it returns an array of at least two
      values, or the empty array for an empty input. */
  lemma ModeIsScalarIff(xs: seq<real>)
    ensures Mode(xs).Scalar? <==> SingleMode(xs)
    ensures Mode(xs).List? ==> |xs| == 0 || |Mode(xs).items| >= 2
  {
    var r := Mode(xs);
    var items := Items(r);
    if r.Scalar? {
      forall a, b | a in xs && b in xs && multiset(xs)[a] == MaxFrequency(xs) && multiset(xs)[b] == MaxFrequency(xs)
        ensures a == b
      {
        assert a in items && b in items;
      }
    } else if |xs| > 0 {
      assert |items| >= 2;
      var a, b := items[0], items[1];
      assert a in items && b in items;
      assert a != b;
    }
  }

  /** The greatest frequency does not depend on the input order. */
  lemma MaxFrequencyPermutation(xs: seq<real>, ys: seq<real>)
    requires multiset(xs) == multiset(ys)
    ensures MaxFrequency(xs) == MaxFrequency(ys)
  {
    var mx, my := MaxFrequency(xs), MaxFrequency(ys);
    if |xs| > 0 {
      assert |ys| == |multiset(ys)| == |xs|;
      var i :| 0 <= i < |xs| && multiset(xs)[xs[i]] == mx;
      var v := xs[i];
      assert v in multiset(ys);
      assert v in ys;
      assert mx <= my;
      var j :| 0 <= j < |ys| && multiset(ys)[ys[j]] == my;
      var w := ys[j];
      assert w in multiset(xs);
      assert w in xs;
      assert my <= mx;
    } else {
      assert |ys| == |multiset(ys)| == 0;
    }
  }

  /** Reordering the input does not change which values are modes, nor
      whether the result is a bare number; only the order of tied modes
      that are not array indices can change. */
  lemma ModeSetPermutation(xs: seq<real>, ys: seq<real>)
    requires multiset(xs) == multiset(ys)
    ensures forall v :: v in Items(Mode(xs)) <==> v in Items(Mode(ys))
    ensures Mode(xs).Scalar? <==> Mode(ys).Scalar?
    ensures Mode(xs).Scalar? ==> Mode(xs) == Mode(ys)
  {
    MaxFrequencyPermutation(xs, ys);
    forall v ensures v in xs <==> v in ys {
      assert v in xs <==> v in multiset(xs);
      assert v in ys <==> v in multiset(ys);
    }
    var a, b := Items(Mode(xs)), Items(Mode(ys));
    assert forall v :: v in a <==> v in b;
    ModeIsScalarIff(xs);
    ModeIsScalarIff(ys);
    assert |xs| == |multiset(xs)| == |ys|;
    if Mode(xs).Scalar? && Mode(ys).Scalar? {
      assert a[0] in a;
    }
  }

  /** Every value is an array index: the keys `for..in` meets are all
      enumerated in ascending numeric order. */
  ghost predicate AllArrayIndices(xs: seq<real>) {
    forall i :: 0 <= i < |xs| ==> IsArrayIndex(xs[i])
  }

  /** When every value is an array index, tied modes come out strictly
      ascending: the case the tests exercise. */
  lemma ModeOfArrayIndicesAscends(xs: seq<real>)
    requires AllArrayIndices(xs)
    ensures Ascending(Items(Mode(xs)))
  {
    var items := Items(Mode(xs));
    forall i, j | 0 <= i < j < |items| ensures items[i] < items[j] {
      var a, b := items[i], items[j];
      assert a in items && b in items;
      assert EnumeratedBefore(xs, a, b);
      var p :| 0 <= p < |xs| && xs[p] == a;
      var q :| 0 <= q < |xs| && xs[q] == b;
      assert IsArrayIndex(a) && IsArrayIndex(b);
    }
  }

  /** When every value is an array index, the result of `mode` does not
      depend on the input order at all. */
  lemma ModeOfArrayIndicesPermutation(xs: seq<real>, ys: seq<real>)
    requires AllArrayIndices(xs) && multiset(xs) == multiset(ys)
    ensures Mode(xs) == Mode(ys)
  {
    assert AllArrayIndices(ys) by {
      forall j | 0 <= j < |ys| ensures IsArrayIndex(ys[j]) {
        var w := ys[j];
        assert w in multiset(xs);
        var p :| 0 <= p < |xs| && xs[p] == w;
      }
    }
    ModeSetPermutation(xs, ys);
    ModeOfArrayIndicesAscends(xs);
    ModeOfArrayIndicesAscends(ys);
    AscendingUnique(Items(Mode(xs)), Items(Mode(ys)));
  }

  /** A count that some element reaches and no element exceeds is the
      greatest frequency. */
  lemma MaxFrequencyIs(xs: seq<real>, m: nat, i: nat)
    requires i < |xs| && multiset(xs)[xs[i]] == m
    requires forall j :: 0 <= j < |xs| ==> multiset(xs)[xs[j]] <= m
    ensures MaxFrequency(xs) == m
  {
    var k :| 0 <= k < |xs| && multiset(xs)[xs[k]] == MaxFrequency(xs);
    var v := xs[i];
    assert v in xs;
  }

  /** A value that occurs more often than every other value is returned
      as a bare number. */
  lemma ModeIsScalarOf(xs: seq<real>, k: nat)
    requires k < |xs|
    requires forall j :: 0 <= j < |xs| ==> xs[j] == xs[k] || multiset(xs)[xs[j]] < multiset(xs)[xs[k]]
    ensures Mode(xs) == Scalar(xs[k])
  {
    var v := xs[k];
    MaxFrequencyIs(xs, multiset(xs)[v], k);
    var items := Items(Mode(xs));
    forall i | 0 <= i < |items| ensures items[i] == v {
      var w := items[i];
      assert w in items;
      var p :| 0 <= p < |xs| && xs[p] == w;
    }
    AllEqualNoDuplicates(items, v);
    assert items[0] == v;
  }

  /** `for..in` never visits a key both before and after another. */
  lemma EnumeratedBeforeAsymmetric(order: seq<real>, a: real, b: real)
    ensures !(EnumeratedBefore(order, a, b) && EnumeratedBefore(order, b, a))
  {
  }

  /** Two duplicate-free arrangements of the same keys, both in `for..in`
      order, are the same arrangement. */
  lemma {:induction false} EnumeratedUnique(order: seq<real>, a: seq<real>, b: seq<real>)
    requires forall i, j :: 0 <= i < j < |a| ==> EnumeratedBefore(order, a[i], a[j])
    requires forall i, j :: 0 <= i < j < |b| ==> EnumeratedBefore(order, b[i], b[j])
    requires forall v :: v in a <==> v in b
    ensures a == b
    decreases |a|
  {
    SameMembersEmpty(a, b);
    if |a| > 0 {
      var x, y := a[0], b[0];
      assert x in a && y in b;
      var k :| 0 <= k < |b| && b[k] == x;
      var l :| 0 <= l < |a| && a[l] == y;
      assert k == 0 || EnumeratedBefore(order, y, x);
      assert l == 0 || EnumeratedBefore(order, x, y);
      EnumeratedBeforeAsymmetric(order, x, y);
      assert x == y;
      forall v ensures v in a[1..] <==> v in b[1..] {
        EnumeratedBeforeAsymmetric(order, x, v);
        if v in a[1..] {
          var p :| 0 <= p < |a[1..]| && a[1..][p] == v;
          assert a[p + 1] == v && EnumeratedBefore(order, x, v);
          assert v in b;
          var q :| 0 <= q < |b| && b[q] == v;
          assert q != 0;
          assert b[1..][q - 1] == v;
        }
        if v in b[1..] {
          var p :| 0 <= p < |b[1..]| && b[1..][p] == v;
          assert b[p + 1] == v && EnumeratedBefore(order, x, v);
          assert v in a;
          var q :| 0 <= q < |a| && a[q] == v;
          assert q != 0;
          assert a[1..][q - 1] == v;
        }
      }
      EnumeratedUnique(order, a[1..], b[1..]);
      assert a == [x] + a[1..] && b == [y] + b[1..];
    }
  }

  /** The values sharing the greatest count, listed in `for..in` order,
      are returned as an array. */
  lemma ModeIsListOf(xs: seq<real>, winners: seq<real>, m: nat)
    requires |winners| >= 2
    requires forall i, j :: 0 <= i < j < |winners| ==> EnumeratedBefore(xs, winners[i], winners[j])
    requires forall i :: 0 <= i < |winners| ==> winners[i] in xs && multiset(xs)[winners[i]] == m
    requires forall j :: 0 <= j < |xs| ==> xs[j] in winners || multiset(xs)[xs[j]] < m
    ensures Mode(xs) == List(winners)
  {
    var w0 := winners[0];
    assert w0 in xs;
    var k :| 0 <= k < |xs| && xs[k] == w0;
    MaxFrequencyIs(xs, m, k);
    var items := Items(Mode(xs));
    forall v ensures v in items <==> v in winners {
      if v in xs {
        var p :| 0 <= p < |xs| && xs[p] == v;
      }
      if v in winners {
        var p :| 0 <= p < |winners| && winners[p] == v;
      }
    }
    EnumeratedUnique(xs, items, winners);
  }

  /** `1,2,2,3,3,3,4` has the single mode 3, returned as a bare number. */
  lemma ModeSingleWinner()
    ensures Mode([1.0, 2.0, 2.0, 3.0, 3.0, 3.0, 4.0]) == Scalar(3.0)
  {
    var xs := [1.0, 2.0, 2.0, 3.0, 3.0, 3.0, 4.0];
    assert multiset(xs) == multiset{1.0, 2.0, 2.0, 3.0, 3.0, 3.0, 4.0};
    ModeIsScalarOf(xs, 3);
  }

  /** `1,2,2,3,3,4,4` has the tied modes 2, 3 and 4, returned as an array
      in ascending order. */
  lemma ModeTiedWinners()
    ensures Mode([1.0, 2.0, 2.0, 3.0, 3.0, 4.0, 4.0]) == List([2.0, 3.0, 4.0])
  {
    var xs := [1.0, 2.0, 2.0, 3.0, 3.0, 4.0, 4.0];
    assert multiset(xs) == multiset{1.0, 2.0, 2.0, 3.0, 3.0, 4.0, 4.0};
    ModeIsListOf(xs, [2.0, 3.0, 4.0], 2);
  }

  /** `3,3,1,1` lists its tied modes as 1, 3: keys that are array indices
      come out in ascending order, not in order of first occurrence. */
  lemma ModeIndexKeysAscending()
    ensures Mode([3.0, 3.0, 1.0, 1.0]) == List([1.0, 3.0])
  {
    var xs := [3.0, 3.0, 1.0, 1.0];
    assert multiset(xs) == multiset{3.0, 3.0, 1.0, 1.0};
    ModeIsListOf(xs, [1.0, 3.0], 2);
  }

  /** `0.5,-1,0.5,-1` lists its tied modes as 0.5, -1: keys that are not
      array indices come out in order of first occurrence. */
  lemma ModeOtherKeysFirstOccurrence()
    ensures Mode([0.5, -1.0, 0.5, -1.0]) == List([0.5, -1.0])
  {
    var xs := [0.5, -1.0, 0.5, -1.0];
    assert multiset(xs) == multiset{0.5, -1.0, 0.5, -1.0};
    assert FirstIndex(xs, 0.5) == 0 && FirstIndex(xs, -1.0) == 1;
    ModeIsListOf(xs, [0.5, -1.0], 2);
  }
}
