/** Go's string order and the sorts the topology code relies on
    (`sort.Slice` on ids, `DirEntriesSortByName` on directory listings). */
module Sorting {

  /** Go's `a < b` on strings: lexicographic by code point, a proper prefix first. */
  predicate Below(a: string, b: string)
    decreases |a|
  {
    if a == [] then b != []
    else if b == [] then false
    else if a[0] != b[0] then a[0] < b[0]
    else Below(a[1..], b[1..])
  }

  lemma {:induction false} BelowIrreflexive(a: string)
    ensures !Below(a, a)
    decreases |a|
  {
    if a != [] { BelowIrreflexive(a[1..]); }
  }

  lemma {:induction false} BelowTransitive(a: string, b: string, c: string)
    requires Below(a, b) && Below(b, c)
    ensures Below(a, c)
    decreases |a|
  {
    if a != [] && a[0] == b[0] && b[0] == c[0] {
      BelowTransitive(a[1..], b[1..], c[1..]);
    }
  }

  lemma {:induction false} BelowTotal(a: string, b: string)
    requires a != b
    ensures Below(a, b) || Below(b, a)
    decreases |a|
  {
    if a != [] && b != [] && a[0] == b[0] {
      assert a == [a[0]] + a[1..] && b == [b[0]] + b[1..];
      BelowTotal(a[1..], b[1..]);
    }
  }

  lemma {:induction false} BelowAsymmetric(a: string, b: string)
    requires Below(a, b)
    ensures !Below(b, a)
    decreases |a|
  {
    if a != [] && b != [] && a[0] == b[0] {
      BelowAsymmetric(a[1..], b[1..]);
    }
  }

  /** Non-decreasing under `key` (`sort.Slice` with a `<` comparator promises no more). */
  ghost predicate SortedBy<T>(s: seq<T>, key: T -> string) {
    forall i, j :: 0 <= i < j < |s| ==> !Below(key(s[j]), key(s[i]))
  }

  /** Strictly increasing strings. */
  ghost predicate StrictlySorted(s: seq<string>) {
    forall i, j :: 0 <= i < j < |s| ==> Below(s[i], s[j])
  }

  function InsertBy<T>(x: T, s: seq<T>, key: T -> string): (r: seq<T>)
    requires SortedBy(s, key)
    ensures multiset(r) == multiset(s) + multiset{x}
    ensures SortedBy(r, key)
  {
    if s == [] then [x]
    else if !Below(key(s[0]), key(x)) then
      assert forall j :: 0 <= j < |s| ==> !Below(key(s[j]), key(x)) by {
        forall j | 0 <= j < |s| ensures !Below(key(s[j]), key(x)) {
          if Below(key(s[j]), key(x)) {
            if key(s[j]) == key(s[0]) {
            } else {
              BelowTotal(key(s[0]), key(s[j]));
              BelowTransitive(key(s[0]), key(s[j]), key(x));
            }
          }
        }
      }
      [x] + s
    else
      var rest := InsertBy(x, s[1..], key);
      assert forall j :: 0 <= j < |rest| ==> !Below(key(rest[j]), key(s[0])) by {
        forall j | 0 <= j < |rest| ensures !Below(key(rest[j]), key(s[0])) {
          assert rest[j] in multiset(rest);
          assert rest[j] == x || rest[j] in multiset(s[1..]);
          if rest[j] == x {
            BelowAsymmetric(key(s[0]), key(x));
          } else {
            var k :| 1 <= k < |s| && s[k] == rest[j] by {
              assert rest[j] in s[1..];
            }
          }
        }
      }
      assert s == [s[0]] + s[1..];
      [s[0]] + rest
  }

  /** Insertion sort by `key`: sorted, and a permutation of its input. */
  function SortBy<T>(s: seq<T>, key: T -> string): (r: seq<T>)
    ensures multiset(r) == multiset(s)
    ensures SortedBy(r, key)
  {
    if s == [] then []
    else
      assert s == [s[0]] + s[1..];
      InsertBy(s[0], SortBy(s[1..], key), key)
  }

  /** A non-decreasing list of distinct strings is strictly increasing. */
  lemma SortedDistinctIsStrict(s: seq<string>)
    requires SortedBy(s, (x: string) => x)
    requires forall i, j :: 0 <= i < j < |s| ==> s[i] != s[j]
    ensures StrictlySorted(s)
  {
    forall i, j | 0 <= i < j < |s| ensures Below(s[i], s[j]) {
      BelowTotal(s[i], s[j]);
    }
  }

  /** The strings a list holds. */
  ghost function Elements(s: seq<string>): (r: set<string>)
    ensures forall x :: x in r <==> x in s
  {
    set x | x in s
  }

  lemma ElementsEmpty(s: seq<string>)
    ensures Elements(s) == {} <==> s == []
  {
    if s != [] { assert s[0] in Elements(s); }
  }

  /** Two strictly increasing lists holding the same strings are the same list. */
  lemma {:induction false} StrictlySortedUnique(a: seq<string>, b: seq<string>)
    requires StrictlySorted(a) && StrictlySorted(b)
    requires Elements(a) == Elements(b)
    ensures a == b
    decreases |a|
  {
    ElementsEmpty(a);
    ElementsEmpty(b);
    if a != [] && b != [] {
      assert a[0] in Elements(a) && b[0] in Elements(b);
      assert a[0] in b && b[0] in a;
      if a[0] != b[0] {
        var i :| 0 <= i < |b| && b[i] == a[0];
        var j :| 0 <= j < |a| && a[j] == b[0];
        assert Below(b[0], b[i]);
        assert Below(a[0], a[j]);
        BelowAsymmetric(a[0], b[0]);
      }
      assert Elements(a[1..]) == Elements(b[1..]) by {
        forall x ensures x in a[1..] <==> x in b[1..] {
          if x in a[1..] {
            var k :| 1 <= k < |a| && a[k] == x;
            assert Below(a[0], x);
            BelowIrreflexive(x);
            assert x in Elements(a);
            assert x in b;
          }
          if x in b[1..] {
            var k :| 1 <= k < |b| && b[k] == x;
            assert Below(b[0], x);
            BelowIrreflexive(x);
            assert x in Elements(b);
            assert x in a;
          }
        }
      }
      StrictlySortedUnique(a[1..], b[1..]);
      assert a == [a[0]] + a[1..] && b == [b[0]] + b[1..];
    }
  }

  ghost predicate IsLeast(m: string, s: set<string>) {
    m in s && forall x :: x in s && x != m ==> Below(m, x)
  }

  lemma {:induction false} LeastExists(s: set<string>)
    requires s != {}
    ensures exists m :: IsLeast(m, s)
    decreases |s|
  {
    var y :| y in s;
    if s == {y} {
      assert IsLeast(y, s);
    } else {
      LeastExists(s - {y});
      var m :| IsLeast(m, s - {y});
      if Below(y, m) {
        forall x | x in s && x != y ensures Below(y, x) {
          if x != m { BelowTransitive(y, m, x); }
        }
        assert IsLeast(y, s);
      } else {
        BelowTotal(y, m);
        assert IsLeast(m, s);
      }
    }
  }

  /** The strings of a finite set in ascending order: the only strictly increasing list holding them. */
  ghost function SortedSet(s: set<string>): (r: seq<string>)
    ensures StrictlySorted(r)
    ensures Elements(r) == s
    decreases |s|
  {
    if s == {} then []
    else
      LeastExists(s);
      var m :| IsLeast(m, s);
      var rest := SortedSet(s - {m});
      PrependLeast(m, s, rest);
      [m] + rest
  }

  lemma PrependLeast(m: string, s: set<string>, rest: seq<string>)
    requires IsLeast(m, s)
    requires StrictlySorted(rest) && Elements(rest) == s - {m}
    ensures StrictlySorted([m] + rest)
    ensures Elements([m] + rest) == s
  {
    forall j | 0 <= j < |rest| ensures Below(m, rest[j]) {
      assert rest[j] in Elements(rest);
    }
  }

  /** The keys of a list, in order. */
  function KeysOf<T>(s: seq<T>, key: T -> string): (r: seq<string>)
    ensures |r| == |s|
    ensures forall i :: 0 <= i < |s| ==> r[i] == key(s[i])
  {
    if s == [] then [] else [key(s[0])] + KeysOf(s[1..], key)
  }

  ghost predicate DistinctKeys<T>(s: seq<T>, key: T -> string) {
    forall i, j :: 0 <= i < j < |s| ==> key(s[i]) != key(s[j])
  }

  /** An element at two positions is counted at least twice. */
  lemma TwoOccurrences<T>(s: seq<T>, i: nat, j: nat)
    requires i < j < |s| && s[i] == s[j]
    ensures multiset(s)[s[i]] >= 2
  {
    assert s == s[..j] + s[j..];
    assert s[i] in s[..j];
    assert s[j] in s[j..];
    assert multiset(s) == multiset(s[..j]) + multiset(s[j..]);
  }

  /** With distinct keys, no element is listed twice. */
  lemma {:induction false} CountAtMostOne<T>(a: seq<T>, key: T -> string, x: T)
    requires DistinctKeys(a, key)
    ensures multiset(a)[x] <= 1
    decreases |a|
  {
    if a != [] {
      assert a == [a[0]] + a[1..];
      CountAtMostOne(a[1..], key, x);
      if a[0] == x {
        assert forall k :: 0 <= k < |a[1..]| ==> key(a[1..][k]) != key(a[0]);
        assert x !in a[1..];
      }
    }
  }

  lemma KeysDiffer<T>(a: seq<T>, b: seq<T>, key: T -> string, i: nat, j: nat)
    requires multiset(a) == multiset(b)
    requires DistinctKeys(a, key)
    requires i < j < |b|
    ensures key(b[i]) != key(b[j])
  {
    assert b[i] in multiset(a) && b[j] in multiset(a);
    var i' :| 0 <= i' < |a| && a[i'] == b[i];
    var j' :| 0 <= j' < |a| && a[j'] == b[j];
    CountAtMostOne(a, key, b[i]);
    if b[i] == b[j] {
      TwoOccurrences(b, i, j);
    }
  }

  /** Reordering a list keeps its keys distinct. */
  lemma PermutationKeepsDistinctKeys<T>(a: seq<T>, b: seq<T>, key: T -> string)
    requires multiset(a) == multiset(b)
    requires DistinctKeys(a, key)
    ensures DistinctKeys(b, key)
  {
    forall i, j | 0 <= i < j < |b| ensures key(b[i]) != key(b[j]) {
      KeysDiffer(a, b, key, i, j);
    }
  }

  /** Reordering a list keeps the set of its keys. */
  lemma PermutationKeepsKeys<T>(a: seq<T>, b: seq<T>, key: T -> string)
    requires multiset(a) == multiset(b)
    ensures Elements(KeysOf(a, key)) == Elements(KeysOf(b, key))
  {
    forall k | k in Elements(KeysOf(a, key)) ensures k in Elements(KeysOf(b, key)) {
      var i :| 0 <= i < |a| && KeysOf(a, key)[i] == k;
      assert a[i] in multiset(b);
      var j :| 0 <= j < |b| && b[j] == a[i];
      assert KeysOf(b, key)[j] == k;
    }
    forall k | k in Elements(KeysOf(b, key)) ensures k in Elements(KeysOf(a, key)) {
      var j :| 0 <= j < |b| && KeysOf(b, key)[j] == k;
      assert b[j] in multiset(a);
      var i :| 0 <= i < |a| && a[i] == b[j];
      assert KeysOf(a, key)[i] == k;
    }
  }

  /** Sorting a list whose keys are distinct lists its keys in strictly ascending
      order: exactly the sorted set of those keys. */
  lemma SortByDistinctKeys<T>(s: seq<T>, key: T -> string)
    requires DistinctKeys(s, key)
    ensures KeysOf(SortBy(s, key), key) == SortedSet(Elements(KeysOf(s, key)))
  {
    var r := SortBy(s, key);
    PermutationKeepsDistinctKeys(s, r, key);
    PermutationKeepsKeys(s, r, key);
    var ks := KeysOf(r, key);
    forall i, j | 0 <= i < j < |ks| ensures Below(ks[i], ks[j]) {
      BelowTotal(ks[i], ks[j]);
    }
    StrictlySortedUnique(ks, SortedSet(Elements(KeysOf(s, key))));
  }
}
