/**
 Lexicographic orders on strings and on tuples of strings, sorting by such a key, and why sorting
 makes a list a canonical form: with distinct keys the sorted list depends on the elements alone.
 */
module Orders {

  type Key = seq<string>

  predicate NoDup<T(==)>(s: seq<T>)
  {
    forall i, j :: 0 <= i < j < |s| ==> s[i] != s[j]
  }

  predicate StringLess(a: string, b: string)
  {
    b != [] && (a == [] || a[0] < b[0] || (a[0] == b[0] && StringLess(a[1..], b[1..])))
  }

  predicate KeyLess(a: Key, b: Key)
  {
    b != [] && (a == [] || StringLess(a[0], b[0]) || (a[0] == b[0] && KeyLess(a[1..], b[1..])))
  }

  lemma {:induction false} StringOrder(a: string, b: string, c: string)
    ensures !StringLess(a, a)
    ensures StringLess(a, b) && StringLess(b, c) ==> StringLess(a, c)
    ensures StringLess(a, b) || a == b || StringLess(b, a)
    decreases |a| + |b| + |c|
  {
    if a != [] {
      StringOrder(a[1..], [], []);
      if b != [] {
        StringOrder(a[1..], b[1..], if c == [] then [] else c[1..]);
        assert a == [a[0]] + a[1..] && b == [b[0]] + b[1..];
      }
    }
  }

  lemma {:induction false} KeyOrder(a: Key, b: Key, c: Key)
    ensures !KeyLess(a, a)
    ensures KeyLess(a, b) && KeyLess(b, c) ==> KeyLess(a, c)
    ensures KeyLess(a, b) || a == b || KeyLess(b, a)
    decreases |a| + |b| + |c|
  {
    if a != [] {
      KeyOrder(a[1..], [], []);
      StringOrder(a[0], [], []);
      if b != [] {
        StringOrder(a[0], b[0], if c == [] then [] else c[0]);
        KeyOrder(a[1..], b[1..], if c == [] then [] else c[1..]);
        assert a == [a[0]] + a[1..] && b == [b[0]] + b[1..];
      }
    }
  }

  // The first place where two lists differ decides their order; a proper prefix comes first.
  ghost predicate DifferFirstAt(a: string, b: string, k: nat)
  {
    k <= |a| && k < |b| && a[..k] == b[..k] && (k == |a| || a[k] < b[k])
  }

  lemma {:induction false} StringLessMeans(a: string, b: string)
    ensures StringLess(a, b) <==> exists k: nat :: DifferFirstAt(a, b, k)
    decreases |a|
  {
    if a == [] {
      assert b != [] ==> DifferFirstAt(a, b, 0);
    } else if b != [] {
      StringLessMeans(a[1..], b[1..]);
      if k: nat :| DifferFirstAt(a[1..], b[1..], k) && a[0] == b[0] {
        assert a[..k + 1] == [a[0]] + a[1..][..k] && b[..k + 1] == [b[0]] + b[1..][..k];
        assert DifferFirstAt(a, b, k + 1);
      }
      if a[0] < b[0] {
        assert DifferFirstAt(a, b, 0);
      }
      if k: nat :| DifferFirstAt(a, b, k) && k > 0 {
        assert a[0] == a[..k][0] && b[0] == b[..k][0];
        assert a[1..][..k - 1] == a[..k][1..] && b[1..][..k - 1] == b[..k][1..];
        assert DifferFirstAt(a[1..], b[1..], k - 1);
      }
    }
  }

  // The same for tuples of strings.
  ghost predicate KeysDifferFirstAt(a: Key, b: Key, k: nat)
  {
    k <= |a| && k < |b| && a[..k] == b[..k] && (k == |a| || StringLess(a[k], b[k]))
  }

  lemma {:induction false} KeyLessMeans(a: Key, b: Key)
    ensures KeyLess(a, b) <==> exists k: nat :: KeysDifferFirstAt(a, b, k)
    decreases |a|
  {
    if a == [] {
      assert b != [] ==> KeysDifferFirstAt(a, b, 0);
    } else if b != [] {
      KeyLessMeans(a[1..], b[1..]);
      if k: nat :| KeysDifferFirstAt(a[1..], b[1..], k) && a[0] == b[0] {
        assert a[..k + 1] == [a[0]] + a[1..][..k] && b[..k + 1] == [b[0]] + b[1..][..k];
        assert KeysDifferFirstAt(a, b, k + 1);
      }
      if StringLess(a[0], b[0]) {
        assert KeysDifferFirstAt(a, b, 0);
      }
      if k: nat :| KeysDifferFirstAt(a, b, k) && k > 0 {
        assert a[0] == a[..k][0] && b[0] == b[..k][0];
        assert a[1..][..k - 1] == a[..k][1..] && b[1..][..k - 1] == b[..k][1..];
        assert KeysDifferFirstAt(a[1..], b[1..], k - 1);
      }
    }
  }

  lemma SingleKey(a: string, b: string)
    ensures KeyLess([a], [b]) <==> StringLess(a, b)
    ensures [a] == [b] <==> a == b
  {
    assert [a][0] == a && [b][0] == b && !KeyLess([a][1..], [b][1..]);
  }

  function StringKey(s: string): Key { [s] }

  ghost predicate SortedBy<T>(s: seq<T>, key: T -> Key)
  {
    forall i, j :: 0 <= i < j < |s| ==> !KeyLess(key(s[j]), key(s[i]))
  }

  predicate DistinctBy<T>(s: seq<T>, key: T -> Key)
  {
    forall i, j :: 0 <= i < j < |s| ==> key(s[i]) != key(s[j])
  }

  function Insert<T>(x: T, s: seq<T>, key: T -> Key): (r: seq<T>)
    ensures multiset(r) == multiset(s) + multiset{x}
  {
    if s == [] || !KeyLess(key(s[0]), key(x)) then [x] + s
    else
      assert s == [s[0]] + s[1..];
      [s[0]] + Insert(x, s[1..], key)
  }

  // A stable sort, as Python's `sorted` is.
  function SortBy<T>(s: seq<T>, key: T -> Key): (r: seq<T>)
    ensures multiset(r) == multiset(s)
    ensures |r| == |s|
  {
    if s == [] then []
    else
      assert s == [s[0]] + s[1..];
      var r := Insert(s[0], SortBy(s[1..], key), key);
      SameSize(r, s);
      r
  }

  lemma SameSize<T>(a: seq<T>, b: seq<T>)
    requires multiset(a) == multiset(b)
    ensures |a| == |b|
  {
    assert |multiset(a)| == |a| && |multiset(b)| == |b|;
  }

  lemma SameMembers<T>(a: seq<T>, b: seq<T>)
    requires multiset(a) == multiset(b)
    ensures forall x :: x in a <==> x in b
  {
    forall x
      ensures x in a <==> x in b
    {
      assert x in multiset(a) <==> x in multiset(b);
    }
  }

  lemma {:induction false} InsertKeepsSorted<T>(x: T, s: seq<T>, key: T -> Key)
    requires SortedBy(s, key)
    ensures SortedBy(Insert(x, s, key), key)
    decreases |s|
  {
    if s == [] {
    } else if !KeyLess(key(s[0]), key(x)) {
      var r := [x] + s;
      forall i, j | 0 <= i < j < |r|
        ensures !KeyLess(key(r[j]), key(r[i]))
      {
        if i == 0 {
          KeyOrder(key(s[j - 1]), key(s[0]), key(x));
          KeyOrder(key(s[0]), key(s[j - 1]), key(x));
          KeyOrder(key(s[j - 1]), key(x), key(s[0]));
          KeyOrder(key(x), key(s[0]), key(s[j - 1]));
        } else {
          assert r[i] == s[i - 1] && r[j] == s[j - 1];
        }
      }
    } else {
      var rest := Insert(x, s[1..], key);
      InsertKeepsSorted(x, s[1..], key);
      var r := [s[0]] + rest;
      forall i, j | 0 <= i < j < |r|
        ensures !KeyLess(key(r[j]), key(r[i]))
      {
        if i == 0 {
          var y := rest[j - 1];
          assert y in multiset(rest);
          if y == x {
            KeyOrder(key(x), key(s[0]), key(x));
          } else {
            assert y in multiset(s[1..]);
            var k :| 0 <= k < |s[1..]| && s[1..][k] == y;
            assert s[k + 1] == y;
          }
        } else {
          assert r[i] == rest[i - 1] && r[j] == rest[j - 1];
        }
      }
    }
  }

  lemma {:induction false} SortIsSorted<T>(s: seq<T>, key: T -> Key)
    ensures SortedBy(SortBy(s, key), key)
    decreases |s|
  {
    if s != [] {
      SortIsSorted(s[1..], key);
      InsertKeepsSorted(s[0], SortBy(s[1..], key), key);
    }
  }

  ghost predicate Injective<T>(s: seq<T>, key: T -> Key)
  {
    forall x, y :: x in s && y in s && key(x) == key(y) ==> x == y
  }

  lemma CountAround<T>(s: seq<T>, i: nat)
    requires i < |s|
    ensures multiset(s) == multiset(s[..i]) + multiset{s[i]} + multiset(s[i + 1..])
  {
    assert s == s[..i] + [s[i]] + s[i + 1..];
  }

  lemma NoDupCounts<T>(s: seq<T>)
    ensures NoDup(s) <==> forall x :: x in s ==> multiset(s)[x] == 1
  {
    if NoDup(s) {
      forall x | x in s
        ensures multiset(s)[x] == 1
      {
        var i :| 0 <= i < |s| && s[i] == x;
        CountAround(s, i);
        assert x !in s[..i] && x !in s[i + 1..];
      }
    } else {
      var i, j :| 0 <= i < j < |s| && s[i] == s[j];
      CountAround(s, i);
      assert s[j] == s[i + 1..][j - i - 1];
      assert s[i] in s && multiset(s)[s[i]] >= 1 + multiset(s[i + 1..])[s[i]] >= 2;
    }
  }

  lemma PermutedNoDup<T>(a: seq<T>, b: seq<T>)
    requires multiset(a) == multiset(b) && NoDup(a)
    ensures NoDup(b)
  {
    SameMembers(a, b);
    NoDupCounts(a);
    NoDupCounts(b);
  }

  lemma PermutedInjective<T>(a: seq<T>, b: seq<T>, key: T -> Key)
    requires multiset(a) == multiset(b) && Injective(a, key)
    ensures Injective(b, key)
  {
    SameMembers(a, b);
    forall x, y | x in b && y in b && key(x) == key(y)
      ensures x == y
    {
      assert x in a && y in a;
    }
  }

  lemma SameElementsPermute<T>(a: seq<T>, b: seq<T>)
    requires NoDup(a) && NoDup(b) && Elements(a) == Elements(b)
    ensures multiset(a) == multiset(b)
  {
    NoDupCounts(a);
    NoDupCounts(b);
    forall x
      ensures multiset(a)[x] == multiset(b)[x]
    {
      assert x in a <==> x in Elements(a);
      assert x in b <==> x in Elements(b);
    }
  }

  lemma HeadIsLeast<T>(s: seq<T>, y: T, key: T -> Key)
    requires SortedBy(s, key) && s != [] && y in s
    ensures !KeyLess(key(y), key(s[0]))
  {
    var j :| 0 <= j < |s| && s[j] == y;
    KeyOrder(key(y), [], []);
  }

  lemma DropHead<T>(s: seq<T>, x: T, key: T -> Key)
    requires s != [] && s[0] == x
    ensures multiset(s[1..]) == multiset(s) - multiset{x}
    ensures SortedBy(s, key) ==> SortedBy(s[1..], key)
    ensures Injective(s, key) ==> Injective(s[1..], key)
    ensures s == [x] + s[1..]
  {
    assert s == [x] + s[1..];
  }

  // Two sorted lists of the same elements, with distinct keys, are the same list.
  lemma {:induction false} SortedListsAgree<T>(a: seq<T>, b: seq<T>, key: T -> Key)
    requires multiset(a) == multiset(b)
    requires SortedBy(a, key) && SortedBy(b, key) && Injective(a, key)
    ensures a == b
    decreases |a|
  {
    SameSize(a, b);
    if a != [] {
      SameMembers(a, b);
      assert a[0] in b && b[0] in a;
      HeadIsLeast(a, b[0], key);
      HeadIsLeast(b, a[0], key);
      KeyOrder(key(a[0]), key(b[0]), []);
      DropHead(a, a[0], key);
      DropHead(b, a[0], key);
      SortedListsAgree(a[1..], b[1..], key);
    }
  }

  // Sorting depends only on the elements once their keys tell them apart.
  lemma SortIsCanonical<T>(a: seq<T>, b: seq<T>, key: T -> Key)
    requires multiset(a) == multiset(b) && Injective(a, key)
    ensures SortBy(a, key) == SortBy(b, key)
  {
    SortIsSorted(a, key);
    SortIsSorted(b, key);
    PermutedInjective(a, SortBy(a, key), key);
    SortedListsAgree(SortBy(a, key), SortBy(b, key), key);
  }

  lemma SortFixesSorted<T>(a: seq<T>, key: T -> Key)
    requires SortedBy(a, key) && Injective(a, key)
    ensures SortBy(a, key) == a
  {
    SortIsSorted(a, key);
    SortedListsAgree(a, SortBy(a, key), key);
  }

  function Sorted(s: seq<string>): (r: seq<string>)
    ensures multiset(r) == multiset(s) && |r| == |s|
  {
    SortBy(s, StringKey)
  }

  function Elements<T>(s: seq<T>): set<T> { set x | x in s }

  lemma {:induction false} NoDupSize<T>(s: seq<T>)
    requires NoDup(s)
    ensures |Elements(s)| == |s|
    decreases |s|
  {
    if s != [] {
      var n := |s| - 1;
      NoDupSize(s[..n]);
      assert Elements(s) == Elements(s[..n]) + {s[n]};
      assert s[n] !in s[..n];
    }
  }

  // A list without repetition inside a finite set is no longer than the set.
  lemma NoDupFits<T>(s: seq<T>, space: set<T>)
    requires NoDup(s) && forall x :: x in s ==> x in space
    ensures |s| <= |space|
    ensures |s| == |space| ==> Elements(s) == space
  {
    NoDupSize(s);
    SubsetFits(Elements(s), space);
  }

  lemma SubsetFits<T>(small: set<T>, large: set<T>)
    requires small <= large
    ensures |small| <= |large|
    ensures |small| == |large| ==> small == large
  {
    assert large == small + (large - small);
    assert |large| == |small| + |large - small|;
  }

  // Pigeonhole: a longer list repeats an element.
  lemma Pigeonhole<T>(s: seq<T>, space: set<T>) returns (i: nat, j: nat)
    requires |s| > |space| && forall x :: x in s ==> x in space
    ensures i < j < |s| && s[i] == s[j]
  {
    if NoDup(s) {
      NoDupFits(s, space);
    }
    i, j :| 0 <= i < j < |s| && s[i] == s[j];
  }

  function MapSeq<T, U>(f: T -> U, s: seq<T>): (r: seq<U>)
    ensures |r| == |s| && forall i :: 0 <= i < |s| ==> r[i] == f(s[i])
  {
    seq(|s|, i requires 0 <= i < |s| => f(s[i]))
  }

  // `s` without its element at `i`.
  function Without<T>(s: seq<T>, i: nat): (r: seq<T>)
    requires i < |s|
  {
    s[..i] + s[i + 1..]
  }

  lemma WithoutCounts<T>(s: seq<T>, i: nat)
    requires i < |s|
    ensures multiset(s) == multiset(Without(s, i)) + multiset{s[i]}
    ensures multiset(Without(s, i)) == multiset(s) - multiset{s[i]}
  {
    CountAround(s, i);
    assert multiset(Without(s, i)) == multiset(s[..i]) + multiset(s[i + 1..]);
  }

  lemma MapWithout<T, U>(f: T -> U, s: seq<T>, i: nat)
    requires i < |s|
    ensures multiset(MapSeq(f, s)) == multiset(MapSeq(f, Without(s, i))) + multiset{f(s[i])}
  {
    WithoutCounts(MapSeq(f, s), i);
    assert MapSeq(f, Without(s, i)) == Without(MapSeq(f, s), i);
  }

  lemma {:induction false} MapPermuted<T, U>(f: T -> U, a: seq<T>, b: seq<T>)
    requires multiset(a) == multiset(b)
    ensures multiset(MapSeq(f, a)) == multiset(MapSeq(f, b))
    decreases |a|
  {
    SameSize(a, b);
    if a == [] {
      assert MapSeq(f, a) == MapSeq(f, b);
    } else {
      SameMembers(a, b);
      assert a[0] in b;
      var i :| 0 <= i < |b| && b[i] == a[0];
      WithoutCounts(a, 0);
      WithoutCounts(b, i);
      MapPermuted(f, Without(a, 0), Without(b, i));
      MapWithout(f, a, 0);
      MapWithout(f, b, i);
    }
  }

  lemma DistinctMeans<T>(s: seq<T>, key: T -> Key)
    ensures DistinctBy(s, key) <==> NoDup(s) && Injective(s, key)
  {
    if DistinctBy(s, key) {
      forall x, y | x in s && y in s && key(x) == key(y)
        ensures x == y
      {
        var i :| 0 <= i < |s| && s[i] == x;
        var j :| 0 <= j < |s| && s[j] == y;
        assert !(i < j) && !(j < i);
      }
    } else if Injective(s, key) {
      var i, j :| 0 <= i < j < |s| && key(s[i]) == key(s[j]);
      assert s[i] in s && s[j] in s;
    }
  }

  lemma PermutedDistinct<T>(a: seq<T>, b: seq<T>, key: T -> Key)
    requires multiset(a) == multiset(b) && DistinctBy(a, key)
    ensures DistinctBy(b, key)
  {
    DistinctMeans(a, key);
    DistinctMeans(b, key);
    PermutedNoDup(a, b);
    PermutedInjective(a, b, key);
  }
}
