/** The library sort, as a stable insertion sort on a real-valued key. */
module Sorting {

  ghost predicate SortedBy<T(!new)>(s: seq<T>, key: T -> real) {
    forall i, j :: 0 <= i < j < |s| ==> key(s[i]) <= key(s[j])
  }

  function InsertBy<T>(x: T, s: seq<T>, key: T -> real): (r: seq<T>)
    ensures multiset(r) == multiset{x} + multiset(s)
  {
    if s == [] || key(x) <= key(s[0]) then
      assert [x] + s == [x] + s;
      [x] + s
    else
      assert s == [s[0]] + s[1..];
      [s[0]] + InsertBy(x, s[1..], key)
  }

  function SortBy<T>(s: seq<T>, key: T -> real): (r: seq<T>)
    ensures multiset(r) == multiset(s)
  {
    if s == [] then []
    else
      assert s == [s[0]] + s[1..];
      InsertBy(s[0], SortBy(s[1..], key), key)
  }

  lemma {:induction false} InsertBySorted<T(!new)>(x: T, s: seq<T>, key: T -> real)
    requires SortedBy(s, key)
    ensures SortedBy(InsertBy(x, s, key), key)
  {
    if s != [] && key(x) > key(s[0]) {
      var rest := InsertBy(x, s[1..], key);
      InsertBySorted(x, s[1..], key);
      forall j | 0 <= j < |rest|
        ensures key(s[0]) <= key(rest[j])
      {
        assert rest[j] in multiset(rest);
        assert rest[j] == x || rest[j] in multiset(s[1..]);
        assert rest[j] == x || rest[j] in s[1..];
      }
    }
  }

  lemma {:induction false} SortBySorted<T(!new)>(s: seq<T>, key: T -> real)
    ensures SortedBy(SortBy(s, key), key)
  {
    if s != [] {
      SortBySorted(s[1..], key);
      InsertBySorted(s[0], SortBy(s[1..], key), key);
    }
  }

  /** A sorted sequence is left as it is. */
  lemma {:induction false} SortByFixed<T(!new)>(s: seq<T>, key: T -> real)
    requires SortedBy(s, key)
    ensures SortBy(s, key) == s
  {
    if s != [] {
      SortByFixed(s[1..], key);
      assert s == [s[0]] + s[1..];
    }
  }

  lemma InSorted<T>(s: seq<T>, key: T -> real, x: T)
    ensures x in SortBy(s, key) <==> x in s
  {
    assert x in SortBy(s, key) <==> x in multiset(SortBy(s, key));
    assert x in s <==> x in multiset(s);
  }

  lemma CountedTwice<T>(r: seq<T>, i: nat, j: nat)
    requires i < j < |r| && r[i] == r[j]
    ensures multiset(r)[r[i]] >= 2
  {
    assert r == r[..j] + r[j..];
    assert r[..j][i] == r[i] && r[j..][0] == r[i];
    assert multiset(r[..j])[r[i]] >= 1 && multiset(r[j..])[r[i]] >= 1;
  }

  lemma OtherPosition<T>(s: seq<T>, a: nat) returns (b: nat)
    requires a < |s| && multiset(s)[s[a]] >= 2
    ensures b < |s| && b != a && s[b] == s[a]
  {
    var front, back := s[..a], s[a + 1..];
    assert s == front + ([s[a]] + back);
    assert multiset(s)[s[a]] == multiset(front)[s[a]] + 1 + multiset(back)[s[a]];
    if s[a] in front {
      b :| 0 <= b < |front| && front[b] == s[a];
    } else {
      assert s[a] in multiset(back);
      var k :| 0 <= k < |back| && back[k] == s[a];
      b := a + 1 + k;
    }
  }

  /** Two positions of a rearranged sequence come from two positions of the original. */
  lemma {:induction false} TwoOrigins<T>(s: seq<T>, r: seq<T>, i: nat, j: nat) returns (a: nat, b: nat)
    requires multiset(s) == multiset(r) && i < j < |r|
    ensures a < |s| && b < |s| && a != b && s[a] == r[i] && s[b] == r[j]
  {
    assert r[i] in multiset(r) && r[j] in multiset(r);
    a :| 0 <= a < |s| && s[a] == r[i];
    if r[i] != r[j] {
      b :| 0 <= b < |s| && s[b] == r[j];
    } else {
      CountedTwice(r, i, j);
      b := OtherPosition(s, a);
    }
  }
}
