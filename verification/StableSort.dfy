/** Stable sorting by a total preorder: what `Array.prototype.sort` promises since ECMAScript 2019.
    Insertion from the right is the reference; `StableSortIsUnique` shows that sortedness and the
    order within each class of equal keys leave no other result, so the algorithm does not matter. */
module StableSort {

  ghost predicate TotalPreorder<T(!new)>(leq: (T, T) -> bool) {
    && (forall a, b :: leq(a, b) || leq(b, a))
    && (forall a, b, c :: leq(a, b) && leq(b, c) ==> leq(a, c))
  }

  predicate SortedBy<T>(s: seq<T>, leq: (T, T) -> bool) {
    forall i, j :: 0 <= i < j < |s| ==> leq(s[i], s[j])
  }

  /** Puts `x` behind every element that is not greater, scanning from the right. */
  function Insert<T>(s: seq<T>, x: T, leq: (T, T) -> bool): seq<T> {
    if s == [] then [x]
    else
      var n := |s| - 1;
      if leq(s[n], x) then s + [x] else Insert(s[..n], x, leq) + [s[n]]
  }

  function Sort<T>(s: seq<T>, leq: (T, T) -> bool): seq<T> {
    if s == [] then [] else Insert(Sort(s[..|s| - 1], leq), s[|s| - 1], leq)
  }

  lemma {:induction false} InsertIsPermutation<T>(s: seq<T>, x: T, leq: (T, T) -> bool)
    ensures multiset(Insert(s, x, leq)) == multiset(s) + multiset{x}
  {
    if s != [] {
      var n := |s| - 1;
      InsertIsPermutation(s[..n], x, leq);
      assert s == s[..n] + [s[n]];
    }
  }

  lemma {:induction false} SortIsPermutation<T>(s: seq<T>, leq: (T, T) -> bool)
    ensures multiset(Sort(s, leq)) == multiset(s)
  {
    hide Insert;
    if s != [] {
      var n := |s| - 1;
      var t := Sort(s[..n], leq);
      SortIsPermutation(s[..n], leq);
      InsertIsPermutation(t, s[n], leq);
      assert s == s[..n] + [s[n]];
      assert multiset(s) == multiset(s[..n]) + multiset{s[n]};
    }
  }

  lemma SameElements<T>(s: seq<T>, t: seq<T>)
    requires multiset(s) == multiset(t)
    ensures |s| == |t| && forall x :: x in s <==> x in t
  {
    assert |multiset(s)| == |s| && |multiset(t)| == |t|;
    assert forall x :: x in s <==> x in multiset(s);
    assert forall x :: x in t <==> x in multiset(t);
  }

  lemma {:induction false} InsertIsSorted<T(!new)>(s: seq<T>, x: T, leq: (T, T) -> bool)
    requires TotalPreorder(leq) && SortedBy(s, leq)
    ensures SortedBy(Insert(s, x, leq), leq)
  {
    if s != [] {
      var n := |s| - 1;
      assert SortedBy(s[..n], leq);
      InsertIsSorted(s[..n], x, leq);
      var t := Insert(s[..n], x, leq);
      if !leq(s[n], x) {
        assert leq(x, s[n]);
        forall i | 0 <= i < |t|
          ensures leq(t[i], s[n])
        {
          InsertMembers(s[..n], x, leq, t[i]);
        }
      } else {
        assert forall i :: 0 <= i < n ==> leq(s[i], s[n]) && leq(s[n], x) && leq(s[i], x);
      }
    }
  }

  lemma InsertMembers<T>(s: seq<T>, x: T, leq: (T, T) -> bool, y: T)
    ensures y in Insert(s, x, leq) <==> y in s || y == x
  {}

  lemma {:induction false} SortIsSorted<T(!new)>(s: seq<T>, leq: (T, T) -> bool)
    requires TotalPreorder(leq)
    ensures SortedBy(Sort(s, leq), leq)
  {
    if s != [] {
      var n := |s| - 1;
      SortIsSorted(s[..n], leq);
      InsertIsSorted(Sort(s[..n], leq), s[n], leq);
    }
  }

  /** Sorting a sorted list changes nothing, ties included. */
  lemma {:induction false} SortOfSorted<T>(s: seq<T>, leq: (T, T) -> bool)
    requires SortedBy(s, leq)
    ensures Sort(s, leq) == s
  {
    if s != [] {
      var n := |s| - 1;
      SortOfSorted(s[..n], leq);
      assert s == s[..n] + [s[n]];
      if n > 0 { assert leq(s[n - 1], s[n]); }
    }
  }

  /** The elements whose key equals the key of `p`, in order. */
  function Class<T>(s: seq<T>, p: T, leq: (T, T) -> bool): seq<T> {
    if s == [] then []
    else
      var n := |s| - 1;
      Class(s[..n], p, leq) + if leq(s[n], p) && leq(p, s[n]) then [s[n]] else []
  }

  lemma ClassStep<T>(s: seq<T>, p: T, leq: (T, T) -> bool)
    ensures Class(s, p, leq) ==
            if s == [] then []
            else
              var n := |s| - 1;
              Class(s[..n], p, leq) + if leq(s[n], p) && leq(p, s[n]) then [s[n]] else []
  {}

  lemma {:induction false} InsertIsStable<T(!new)>(s: seq<T>, x: T, p: T, leq: (T, T) -> bool)
    requires TotalPreorder(leq)
    ensures Class(Insert(s, x, leq), p, leq) == Class(s + [x], p, leq)
  {
    var n := |s| - 1;
    assert (s + [x])[..|s|] == s;
    if s != [] && !leq(s[n], x) {
      InsertIsStable(s[..n], x, p, leq);
      var t := Insert(s[..n], x, leq);
      assert (t + [s[n]])[..|t|] == t;
      assert (s[..n] + [x])[..n] == s[..n];
    } else if s == [] {
      assert s + [x] == [x];
    }
  }

  /** Elements with equal keys keep their order. */
  lemma {:induction false} SortIsStable<T(!new)>(s: seq<T>, p: T, leq: (T, T) -> bool)
    requires TotalPreorder(leq)
    ensures Class(Sort(s, leq), p, leq) == Class(s, p, leq)
  {
    if s != [] {
      var n := |s| - 1;
      var t := Sort(s[..n], leq);
      SortIsStable(s[..n], p, leq);
      InsertIsStable(t, s[n], p, leq);
      assert (t + [s[n]])[..|t|] == t;
    }
  }

  lemma {:induction false} ClassMembers<T>(s: seq<T>, p: T, leq: (T, T) -> bool, x: T)
    ensures x in Class(s, p, leq) <==> x in s && leq(x, p) && leq(p, x)
  {
    if s != [] {
      var n := |s| - 1;
      ClassMembers(s[..n], p, leq, x);
      assert s == s[..n] + [s[n]];
    }
  }

  ghost predicate SameClasses<T(!new)>(s: seq<T>, t: seq<T>, leq: (T, T) -> bool) {
    forall p :: Class(s, p, leq) == Class(t, p, leq)
  }

  lemma SameClassesMembers<T(!new)>(s: seq<T>, t: seq<T>, leq: (T, T) -> bool, x: T)
    requires TotalPreorder(leq) && SameClasses(s, t, leq)
    ensures x in s <==> x in t
  {
    ClassMembers(s, x, leq, x);
    ClassMembers(t, x, leq, x);
  }

  lemma SameClassesEmpty<T(!new)>(s: seq<T>, t: seq<T>, leq: (T, T) -> bool)
    requires TotalPreorder(leq) && SameClasses(s, t, leq)
    ensures s == [] <==> t == []
  {
    if s != [] { SameClassesMembers(s, t, leq, s[0]); }
    if t != [] { SameClassesMembers(s, t, leq, t[0]); }
  }

  lemma SameClassesDropLast<T(!new)>(s: seq<T>, t: seq<T>, leq: (T, T) -> bool)
    requires s != [] && t != [] && s[|s| - 1] == t[|t| - 1] && SameClasses(s, t, leq)
    ensures SameClasses(s[..|s| - 1], t[..|t| - 1], leq)
  {
    var x, n, m := s[|s| - 1], |s| - 1, |t| - 1;
    forall p ensures Class(s[..n], p, leq) == Class(t[..m], p, leq) {
      var tail := if leq(x, p) && leq(p, x) then [x] else [];
      var c, d := Class(s[..n], p, leq), Class(t[..m], p, leq);
      assert Class(s, p, leq) == c + tail && Class(t, p, leq) == d + tail;
      assert (c + tail)[..|c|] == c && (d + tail)[..|d|] == d;
      assert |c + tail| == |d + tail|;
    }
  }

  /** Two sorted lists with the same classes are the same list: a stable sort has one result. */
  lemma {:induction false} StableSortIsUnique<T(!new)>(s: seq<T>, t: seq<T>, leq: (T, T) -> bool)
    requires TotalPreorder(leq) && SortedBy(s, leq) && SortedBy(t, leq)
    requires SameClasses(s, t, leq)
    ensures s == t
    decreases |s|
  {
    SameClassesEmpty(s, t, leq);
    if s != [] {
      var n, m := |s| - 1, |t| - 1;
      SameClassesMembers(s, t, leq, s[n]);
      SameClassesMembers(s, t, leq, t[m]);
      assert leq(s[n], t[m]) && leq(t[m], s[n]) by {
        LastIsGreatest(s, t[m], leq);
        LastIsGreatest(t, s[n], leq);
      }
      var c, d := Class(s, s[n], leq), Class(t, s[n], leq);
      assert c[|c| - 1] == s[n] && d[|d| - 1] == t[m];
      assert s[n] == t[m];
      SameClassesDropLast(s, t, leq);
      StableSortIsUnique(s[..n], t[..m], leq);
      assert s == s[..n] + [s[n]] && t == t[..m] + [t[m]];
    }
  }

  lemma LastIsGreatest<T(!new)>(s: seq<T>, x: T, leq: (T, T) -> bool)
    requires TotalPreorder(leq) && SortedBy(s, leq) && x in s
    ensures leq(x, s[|s| - 1])
  {}

  ghost predicate Pairwise<T(!new)>(s: seq<T>, before: (T, T) -> bool) {
    forall i, j :: 0 <= i < j < |s| ==> before(s[i], s[j])
  }

  lemma {:induction false} ClassIsPairwise<T(!new)>(s: seq<T>, p: T, leq: (T, T) -> bool, before: (T, T) -> bool)
    requires Pairwise(s, before)
    ensures Pairwise(Class(s, p, leq), before)
  {
    if s != [] {
      var n := |s| - 1;
      ClassIsPairwise(s[..n], p, leq, before);
      var c := Class(s[..n], p, leq);
      forall i | 0 <= i < |c| ensures before(c[i], s[n]) {
        ClassMembers(s[..n], p, leq, c[i]);
        var j :| 0 <= j < n && s[j] == c[i];
      }
    }
  }

  lemma {:induction false} ClassOrders<T(!new)>(s: seq<T>, leq: (T, T) -> bool, before: (T, T) -> bool, i: nat, j: nat)
    requires TotalPreorder(leq) && i < j < |s| && leq(s[i], s[j]) && leq(s[j], s[i])
    requires Pairwise(Class(s, s[i], leq), before)
    ensures before(s[i], s[j])
  {
    var n := |s| - 1;
    var c := Class(s[..n], s[i], leq);
    if j == n {
      ClassMembers(s[..n], s[i], leq, s[i]);
      assert s[..n][i] == s[i];
      var k :| 0 <= k < |c| && c[k] == s[i];
      assert Class(s, s[i], leq) == c + [s[n]];
      assert (c + [s[n]])[k] == s[i] && (c + [s[n]])[|c|] == s[n];
    } else {
      assert Class(s, s[i], leq)[..|c|] == c;
      assert Pairwise(c, before);
      ClassOrders(s[..n], leq, before, i, j);
    }
  }

  /** Stability in plain terms: whatever relation held between all earlier and later elements still holds
      between elements with equal keys. */
  lemma TiesKeepTheirOrder<T(!new)>(s: seq<T>, leq: (T, T) -> bool, before: (T, T) -> bool, i: nat, j: nat)
    requires TotalPreorder(leq) && Pairwise(s, before)
    requires i < j < |Sort(s, leq)| && leq(Sort(s, leq)[i], Sort(s, leq)[j]) && leq(Sort(s, leq)[j], Sort(s, leq)[i])
    ensures before(Sort(s, leq)[i], Sort(s, leq)[j])
  {
    hide Sort, TotalPreorder;
    var t := Sort(s, leq);
    SortIsStable(s, t[i], leq);
    ClassIsPairwise(s, t[i], leq, before);
    ClassOrders(t, leq, before, i, j);
  }

  /** The reference is therefore the only stable sort: any sorted list with the classes of `s`. */
  lemma SortIsTheStableSort<T(!new)>(s: seq<T>, t: seq<T>, leq: (T, T) -> bool)
    requires TotalPreorder(leq)
    ensures t == Sort(s, leq) <==> SortedBy(t, leq) && SameClasses(t, s, leq)
  {
    hide SortedBy, Class, Sort, TotalPreorder;
    var r := Sort(s, leq);
    SortIsSorted(s, leq);
    assert SameClasses(r, s, leq) by {
      forall p ensures Class(r, p, leq) == Class(s, p, leq) { SortIsStable(s, p, leq); }
    }
    if SortedBy(t, leq) && SameClasses(t, s, leq) {
      assert SameClasses(t, r, leq);
      StableSortIsUnique(t, r, leq);
    }
  }
}
