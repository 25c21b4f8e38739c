/** The order in which JavaScript's default `Array.prototype.sort` puts strings
    (lexicographic by character code), a sort by that order, and duplicate-free lists. */
module StringOrder {

  /** `a` sorts no later than `b`: a proper prefix comes first, otherwise the first differing
      character decides. */
  predicate Le(a: string, b: string)
    decreases |a|
  {
    a == [] || (b != [] && (a[0] < b[0] || (a[0] == b[0] && Le(a[1..], b[1..]))))
  }

  lemma {:induction false} LeReflexive(a: string)
    ensures Le(a, a)
    decreases |a|
  {
    if a != [] {
      LeReflexive(a[1..]);
    }
  }

  lemma {:induction false} LeAntisymmetric(a: string, b: string)
    requires Le(a, b) && Le(b, a)
    ensures a == b
    decreases |a|
  {
    if a != [] && b != [] {
      assert a[0] == b[0];
      LeAntisymmetric(a[1..], b[1..]);
      assert a == [a[0]] + a[1..] && b == [b[0]] + b[1..];
    }
  }

  lemma {:induction false} LeTransitive(a: string, b: string, c: string)
    requires Le(a, b) && Le(b, c)
    ensures Le(a, c)
    decreases |a|
  {
    if a != [] && b != [] && c != [] && a[0] == b[0] == c[0] {
      LeTransitive(a[1..], b[1..], c[1..]);
    }
  }

  lemma {:induction false} LeTotal(a: string, b: string)
    ensures Le(a, b) || Le(b, a)
    decreases |a|
  {
    if a != [] && b != [] && a[0] == b[0] {
      LeTotal(a[1..], b[1..]);
    }
  }

  predicate Sorted(s: seq<string>) {
    forall i, j :: 0 <= i < j < |s| ==> Le(s[i], s[j])
  }

  predicate NoDup(s: seq<string>) {
    forall i, j :: 0 <= i < j < |s| ==> s[i] != s[j]
  }

  /** The elements of a list, as a set. */
  function Elements(s: seq<string>): set<string> {
    set x | x in s
  }

  /** Insert `x` before the first element it sorts no later than. */
  function Insert(s: seq<string>, x: string): seq<string>
  {
    if s == [] then [x]
    else if Le(x, s[0]) then [x] + s
    else [s[0]] + Insert(s[1..], x)
  }

  /** Insertion sort by `Le`. */
  function Sort(s: seq<string>): seq<string>
  {
    if s == [] then [] else Insert(Sort(s[..|s| - 1]), s[|s| - 1])
  }

  lemma {:induction false} InsertPermutes(s: seq<string>, x: string)
    ensures multiset(Insert(s, x)) == multiset(s) + multiset{x}
  {
    if s != [] && !Le(x, s[0]) {
      InsertPermutes(s[1..], x);
      assert s == [s[0]] + s[1..];
    }
  }

  lemma {:induction false} InsertSorted(s: seq<string>, x: string)
    requires Sorted(s)
    ensures Sorted(Insert(s, x))
  {
    if s == [] {
    } else if Le(x, s[0]) {
      forall j | 0 <= j < |s| ensures Le(x, s[j]) {
        if j > 0 {
          LeTransitive(x, s[0], s[j]);
        }
      }
      ConsSorted(x, s);
    } else {
      LeTotal(x, s[0]);
      SortedTail(s);
      InsertSorted(s[1..], x);
      var t := Insert(s[1..], x);
      InsertPermutes(s[1..], x);
      forall j | 0 <= j < |t| ensures Le(s[0], t[j]) {
        InsertedElement(s, x, t, j);
      }
      ConsSorted(s[0], t);
    }
  }

  /** An element of `Insert(s[1..], x)` is `x` or an element of `s` after the first. */
  lemma InsertedElement(s: seq<string>, x: string, t: seq<string>, j: int)
    requires Sorted(s) && s != [] && Le(s[0], x)
    requires multiset(t) == multiset(s[1..]) + multiset{x}
    requires 0 <= j < |t|
    ensures Le(s[0], t[j])
  {
    assert t[j] in multiset(t);
    if t[j] != x {
      assert t[j] in multiset(s[1..]);
      var k :| 0 <= k < |s[1..]| && s[1..][k] == t[j];
      assert s[k + 1] == t[j];
    }
  }

  /** A sorted list with an element in front that sorts no later than any of it is sorted. */
  lemma ConsSorted(h: string, t: seq<string>)
    requires Sorted(t)
    requires forall j :: 0 <= j < |t| ==> Le(h, t[j])
    ensures Sorted([h] + t)
  {
    var r := [h] + t;
    forall i, j | 0 <= i < j < |r| ensures Le(r[i], r[j]) {
      assert r[j] == t[j - 1];
      if i > 0 {
        assert r[i] == t[i - 1];
      }
    }
  }

  /** The result of `Sort` is in order and a permutation of its input. */
  lemma {:induction false} SortCorrect(s: seq<string>)
    ensures Sorted(Sort(s))
    ensures multiset(Sort(s)) == multiset(s)
  {
    if s != [] {
      var init := s[..|s| - 1];
      SortCorrect(init);
      InsertSorted(Sort(init), s[|s| - 1]);
      InsertPermutes(Sort(init), s[|s| - 1]);
      assert s == init + [s[|s| - 1]];
    }
  }

  lemma SortedTail(s: seq<string>)
    requires s != [] && Sorted(s)
    ensures Sorted(s[1..])
  {
    forall i, j | 0 <= i < j < |s| - 1 ensures Le(s[1..][i], s[1..][j]) {
      assert s[1..][i] == s[i + 1] && s[1..][j] == s[j + 1];
    }
  }

  /** There is only one sorted permutation of a list of strings, so any correct sort (in
      particular the engine's `Array.prototype.sort`) gives the result `Sort` gives. */
  lemma {:induction false} SortedPermutationUnique(a: seq<string>, b: seq<string>)
    requires Sorted(a) && Sorted(b)
    requires multiset(a) == multiset(b)
    ensures a == b
    decreases |a|
  {
    assert |a| == |multiset(a)| == |multiset(b)| == |b|;
    if a != [] {
      assert a[0] in multiset(b);
      HeadIsLeast(b, a[0]);
      assert b[0] in multiset(a);
      HeadIsLeast(a, b[0]);
      LeAntisymmetric(a[0], b[0]);
      SameTails(a, b);
      SortedTail(a);
      SortedTail(b);
      SortedPermutationUnique(a[1..], b[1..]);
      assert a == [a[0]] + a[1..] && b == [b[0]] + b[1..];
    }
  }

  /** The first element of a sorted list sorts no later than any element of it. */
  lemma HeadIsLeast(s: seq<string>, x: string)
    requires Sorted(s) && x in multiset(s)
    ensures Le(s[0], x)
  {
    var j :| 0 <= j < |s| && s[j] == x;
    if j == 0 {
      LeReflexive(x);
    }
  }

  /** Two permutations of each other that start alike continue as permutations. */
  lemma SameTails(a: seq<string>, b: seq<string>)
    requires a != [] && b != [] && a[0] == b[0]
    requires multiset(a) == multiset(b)
    ensures multiset(a[1..]) == multiset(b[1..])
  {
    assert a == [a[0]] + a[1..] && b == [b[0]] + b[1..];
    assert multiset(a) == multiset{a[0]} + multiset(a[1..]);
    assert multiset(b) == multiset{b[0]} + multiset(b[1..]);
    forall x ensures multiset(a[1..])[x] == multiset(b[1..])[x] {
      assert multiset(a)[x] == multiset(b)[x];
    }
  }

  /** A list is duplicate-free exactly when no element occurs in it twice. */
  lemma {:induction false} NoDupByCount(s: seq<string>)
    ensures NoDup(s) <==> forall x :: multiset(s)[x] <= 1
  {
    if s == [] {
    } else {
      var init, last := s[..|s| - 1], s[|s| - 1];
      NoDupByCount(init);
      assert s == init + [last];
      if NoDup(s) {
        assert NoDup(init);
        assert last !in init;
      } else {
        var i, j :| 0 <= i < j < |s| && s[i] == s[j];
        if j < |s| - 1 {
          assert init[i] == init[j];
          assert !NoDup(init);
          var x :| multiset(init)[x] > 1;
          assert multiset(s) == multiset(init) + multiset{last};
          assert multiset(s)[x] > 1;
        } else {
          assert init[i] == last;
          assert multiset(s)[last] >= 2;
        }
      }
    }
  }

  /** Permuting a list keeps it duplicate-free. */
  lemma NoDupPermutation(a: seq<string>, b: seq<string>)
    requires multiset(a) == multiset(b)
    requires NoDup(a)
    ensures NoDup(b)
  {
    NoDupByCount(a);
    NoDupByCount(b);
  }

  /** A duplicate-free list has as many distinct elements as it has entries. */
  lemma {:induction false} NoDupElements(s: seq<string>)
    requires NoDup(s)
    ensures |Elements(s)| == |s|
  {
    if s != [] {
      var init, last := s[..|s| - 1], s[|s| - 1];
      assert NoDup(init);
      NoDupElements(init);
      assert last !in Elements(init);
      assert Elements(s) == Elements(init) + {last} by {
        assert s == init + [last];
      }
    }
  }
}
