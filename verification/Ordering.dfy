/**
 Sorting by a key, as every renderer of the repository does before it emits anything.

 A key is a sequence of integers compared lexicographically, a shorter sequence first.
 That is the order of Python strings (by code point), of tuples such as `(priority, id)`
 and of addresses of one family written as bits.
 */
module Ordering {

  type Key = seq<int>

  predicate LexLeq(a: Key, b: Key)
  {
    a == [] ||
    (b != [] && (a[0] < b[0] || (a[0] == b[0] && LexLeq(a[1..], b[1..]))))
  }

  lemma LexReflexive(a: Key)
    ensures LexLeq(a, a)
  {
  }

  lemma {:induction false} LexTotal(a: Key, b: Key)
    ensures LexLeq(a, b) || LexLeq(b, a)
  {
    if a != [] && b != [] && a[0] == b[0] {
      LexTotal(a[1..], b[1..]);
    }
  }

  lemma {:induction false} LexTransitive(a: Key, b: Key, c: Key)
    requires LexLeq(a, b) && LexLeq(b, c)
    ensures LexLeq(a, c)
  {
    if a != [] && a[0] == b[0] && b[0] == c[0] {
      LexTransitive(a[1..], b[1..], c[1..]);
    }
  }

  lemma {:induction false} LexAntisymmetric(a: Key, b: Key)
    requires LexLeq(a, b) && LexLeq(b, a)
    ensures a == b
  {
    if a != [] {
      LexAntisymmetric(a[1..], b[1..]);
      assert a == [a[0]] + a[1..];
      assert b == [b[0]] + b[1..];
    }
  }

  /** The key of a text: its code points. */
  function TextKey(s: string): Key {
    seq(|s|, i requires 0 <= i < |s| => s[i] as int)
  }

  lemma TextKeyInjective(a: string, b: string)
    requires TextKey(a) == TextKey(b)
    ensures a == b
  {
    assert |a| == |TextKey(a)| == |TextKey(b)| == |b|;
    forall i | 0 <= i < |a|
      ensures a[i] == b[i]
    {
      assert TextKey(a)[i] == TextKey(b)[i];
    }
  }

  /** Code point order of texts, said directly: a prefix, or smaller where the two first differ. */
  predicate TextLeq(a: string, b: string) {
    || (|a| <= |b| && a == b[..|a|])
    || exists i :: 0 <= i < |a| && i < |b| && a[..i] == b[..i] && a[i] < b[i]
  }

  lemma {:induction false} TextOrder(a: string, b: string)
    ensures LexLeq(TextKey(a), TextKey(b)) <==> TextLeq(a, b)
  {
    if a != "" && b != "" {
      assert TextKey(a)[1..] == TextKey(a[1..]) && TextKey(b)[1..] == TextKey(b[1..]);
      TextOrder(a[1..], b[1..]);
      if a[0] == b[0] {
        if TextLeq(a[1..], b[1..]) {
          TailLeq(a, b);
        }
        if TextLeq(a, b) {
          LeqTail(a, b);
        }
      } else if a[0] < b[0] {
        assert a[..0] == b[..0];
      }
    }
  }

  lemma TailLeq(a: string, b: string)
    requires a != "" && b != "" && a[0] == b[0] && TextLeq(a[1..], b[1..])
    ensures TextLeq(a, b)
  {
    var s, t := a[1..], b[1..];
    assert a == [a[0]] + s;
    if |s| <= |t| && s == t[..|s|] {
      assert b[..|a|] == [b[0]] + t[..|s|];
    } else {
      var i :| 0 <= i < |s| && i < |t| && s[..i] == t[..i] && s[i] < t[i];
      assert a[..i + 1] == [a[0]] + s[..i] && b[..i + 1] == [b[0]] + t[..i];
      assert a[i + 1] < b[i + 1];
    }
  }

  lemma LeqTail(a: string, b: string)
    requires a != "" && b != "" && a[0] == b[0] && TextLeq(a, b)
    ensures TextLeq(a[1..], b[1..])
  {
    var s, t := a[1..], b[1..];
    if |a| <= |b| && a == b[..|a|] {
      assert s == b[..|a|][1..] == t[..|s|];
    } else {
      var i :| 0 <= i < |a| && i < |b| && a[..i] == b[..i] && a[i] < b[i];
      assert s[..i - 1] == a[..i][1..] == b[..i][1..] == t[..i - 1];
      assert s[i - 1] < t[i - 1];
    }
  }

  /** The order of `(priority, id)`. */
  lemma PriorityOrder(p: int, a: string, q: int, b: string)
    ensures LexLeq([p] + TextKey(a), [q] + TextKey(b)) <==> p < q || (p == q && TextLeq(a, b))
  {
    assert ([p] + TextKey(a))[1..] == TextKey(a) && ([q] + TextKey(b))[1..] == TextKey(b);
    TextOrder(a, b);
  }

  function Insert<T>(x: T, s: seq<T>, key: T -> Key): seq<T> {
    if s == [] || LexLeq(key(x), key(s[0])) then [x] + s
    else [s[0]] + Insert(x, s[1..], key)
  }

  function SortBy<T>(s: seq<T>, key: T -> Key): seq<T> {
    if s == [] then [] else Insert(s[0], SortBy(s[1..], key), key)
  }

  ghost predicate Sorted<T>(s: seq<T>, key: T -> Key) {
    forall i, j :: 0 <= i < j < |s| ==> LexLeq(key(s[i]), key(s[j]))
  }

  lemma {:induction false} InsertPermutes<T>(x: T, s: seq<T>, key: T -> Key)
    ensures multiset(Insert(x, s, key)) == multiset([x]) + multiset(s)
  {
    if s != [] && !LexLeq(key(x), key(s[0])) {
      InsertPermutes(x, s[1..], key);
      assert s == [s[0]] + s[1..];
    }
  }

  lemma {:induction false} InsertSorted<T>(x: T, s: seq<T>, key: T -> Key)
    requires Sorted(s, key)
    ensures Sorted(Insert(x, s, key), key)
  {
    if s == [] {
    } else if LexLeq(key(x), key(s[0])) {
      forall j | 0 <= j < |s|
        ensures LexLeq(key(x), key(s[j]))
      {
        if j > 0 {
          LexTransitive(key(x), key(s[0]), key(s[j]));
        }
      }
    } else {
      InsertSorted(x, s[1..], key);
      InsertPermutes(x, s[1..], key);
      LexTotal(key(x), key(s[0]));
      var rest := Insert(x, s[1..], key);
      forall j | 0 <= j < |rest|
        ensures LexLeq(key(s[0]), key(rest[j]))
      {
        assert rest[j] in multiset(rest);
        if rest[j] != x {
          assert rest[j] in multiset(s[1..]);
        }
      }
    }
  }

  lemma {:induction false} SortByPermutes<T>(s: seq<T>, key: T -> Key)
    ensures multiset(SortBy(s, key)) == multiset(s)
  {
    if s != [] {
      SortByPermutes(s[1..], key);
      InsertPermutes(s[0], SortBy(s[1..], key), key);
      assert s == [s[0]] + s[1..];
    }
  }

  lemma {:induction false} SortBySorted<T>(s: seq<T>, key: T -> Key)
    ensures Sorted(SortBy(s, key), key)
  {
    if s != [] {
      SortBySorted(s[1..], key);
      InsertSorted(s[0], SortBy(s[1..], key), key);
    }
  }

  /** Sorting neither loses nor invents an element. */
  lemma SortByMember<T>(s: seq<T>, key: T -> Key, x: T)
    ensures x in SortBy(s, key) <==> x in s
  {
    SortByPermutes(s, key);
    assert x in SortBy(s, key) <==> x in multiset(SortBy(s, key));
    assert x in s <==> x in multiset(s);
  }

  ghost predicate KeyInjectiveOn<T>(s: seq<T>, key: T -> Key) {
    forall x, y :: x in s && y in s && key(x) == key(y) ==> x == y
  }

  /** Two sorted permutations of each other begin alike. */
  lemma SameHead<T>(a: seq<T>, b: seq<T>, key: T -> Key)
    requires a != [] && multiset(a) == multiset(b)
    requires Sorted(a, key) && Sorted(b, key)
    requires KeyInjectiveOn(a, key)
    ensures b != [] && a[0] == b[0]
  {
    assert a[0] in multiset(b);
    assert b[0] in multiset(a);
    HeadLeast(a, b[0], key);
    HeadLeast(b, a[0], key);
    LexAntisymmetric(key(a[0]), key(b[0]));
  }

  lemma MultisetTail<T>(a: seq<T>)
    requires a != []
    ensures multiset(a[1..]) == multiset(a) - multiset{a[0]}
  {
    assert a == [a[0]] + a[1..];
  }

  /** Two sorted permutations of each other are equal when no two elements share a key. */
  lemma {:induction false} SortedUnique<T>(a: seq<T>, b: seq<T>, key: T -> Key)
    requires multiset(a) == multiset(b)
    requires Sorted(a, key) && Sorted(b, key)
    requires KeyInjectiveOn(a, key)
    ensures a == b
  {
    if a == [] {
      assert |b| == |multiset(b)| == 0;
    } else {
      SameHead(a, b, key);
      MultisetTail(a);
      MultisetTail(b);
      SortedUnique(a[1..], b[1..], key);
      assert a == [a[0]] + a[1..];
      assert b == [b[0]] + b[1..];
    }
  }

  lemma HeadLeast<T>(s: seq<T>, x: T, key: T -> Key)
    requires Sorted(s, key) && x in s
    ensures LexLeq(key(s[0]), key(x))
  {
    var i :| 0 <= i < |s| && s[i] == x;
    if i == 0 {
      LexReflexive(key(x));
    }
  }

  lemma InjectiveAfterSort<T>(s: seq<T>, key: T -> Key)
    requires KeyInjectiveOn(s, key)
    ensures KeyInjectiveOn(SortBy(s, key), key)
  {
    var c := SortBy(s, key);
    forall x, y | x in c && y in c && key(x) == key(y)
      ensures x == y
    {
      SortByMember(s, key, x);
      SortByMember(s, key, y);
    }
  }

  /** What a renderer needs for byte stability: the order of the input cannot be seen. */
  lemma SortByCanonical<T>(a: seq<T>, b: seq<T>, key: T -> Key)
    requires multiset(a) == multiset(b)
    requires KeyInjectiveOn(a, key)
    ensures SortBy(a, key) == SortBy(b, key)
  {
    SortByPermutes(a, key);
    SortByPermutes(b, key);
    SortBySorted(a, key);
    SortBySorted(b, key);
    InjectiveAfterSort(a, key);
    SortedUnique(SortBy(a, key), SortBy(b, key), key);
  }

  /** `sorted({...})`: duplicates go, the rest is put in order. */
  function Dedup<T(==)>(s: seq<T>): seq<T> {
    if s == [] then []
    else if s[0] in s[1..] then Dedup(s[1..])
    else [s[0]] + Dedup(s[1..])
  }

  ghost function Elements<T>(s: seq<T>): set<T> {
    set x | x in s
  }

  lemma {:induction false} DedupElements<T>(s: seq<T>)
    ensures multiset(Dedup(s)) == multiset(Elements(s))
  {
    if s != [] {
      DedupElements(s[1..]);
      assert s == [s[0]] + s[1..];
      assert Elements(s) == {s[0]} + Elements(s[1..]);
    }
  }

  function SortedSet<T(==)>(s: seq<T>, key: T -> Key): seq<T> {
    SortBy(Dedup(s), key)
  }

  lemma DedupMember<T>(s: seq<T>, x: T)
    ensures x in Dedup(s) <==> x in s
  {
    DedupElements(s);
    assert x in Dedup(s) <==> x in multiset(Dedup(s));
    assert x in s <==> x in Elements(s);
  }

  lemma SortedSetMember<T>(s: seq<T>, key: T -> Key, x: T)
    ensures x in SortedSet(s, key) <==> x in s
  {
    SortByMember(Dedup(s), key, x);
    DedupMember(s, x);
  }

  lemma TwiceInMultiset<T>(s: seq<T>, i: nat, j: nat)
    requires i < j < |s| && s[i] == s[j]
    ensures multiset(s)[s[i]] >= 2
  {
    var a, b := s[..j], s[j..];
    assert s == a + b;
    assert a[i] == s[i] && b[0] == s[i];
    assert s[i] in multiset(a) && s[i] in multiset(b);
  }

  lemma SortedSetDistinct<T>(s: seq<T>, key: T -> Key, i: nat, j: nat)
    requires i < j < |SortedSet(s, key)|
    ensures SortedSet(s, key)[i] != SortedSet(s, key)[j]
  {
    var r := SortedSet(s, key);
    SortByPermutes(Dedup(s), key);
    DedupElements(s);
    if r[i] == r[j] {
      TwiceInMultiset(r, i, j);
    }
  }

  predicate InTextOrder(texts: seq<string>) {
    forall i, j :: 0 <= i < j < |texts| ==> TextLeq(texts[i], texts[j])
  }

  lemma TextsInOrder(texts: seq<string>)
    ensures InTextOrder(SortBy(texts, TextKey))
  {
    var sorted := SortBy(texts, TextKey);
    SortBySorted(texts, TextKey);
    forall i, j | 0 <= i < j < |sorted|
      ensures TextLeq(sorted[i], sorted[j])
    {
      TextOrder(sorted[i], sorted[j]);
    }
  }

  /** `sorted({...})` of texts: each once, in text order. */
  lemma SortedTextsMean(texts: seq<string>)
    ensures var r := SortedSet(texts, TextKey);
            InTextOrder(r) && (forall x :: x in r <==> x in texts) && forall i, j :: 0 <= i < j < |r| ==> r[i] != r[j]
  {
    var r := SortedSet(texts, TextKey);
    TextsInOrder(Dedup(texts));
    forall x
      ensures x in r <==> x in texts
    {
      SortedSetMember(texts, TextKey, x);
    }
    forall i, j | 0 <= i < j < |r|
      ensures r[i] != r[j]
    {
      SortedSetDistinct(texts, TextKey, i, j);
    }
  }

  /** The rendering of a set depends on its elements alone. */
  lemma SortedSetCanonical<T>(a: seq<T>, b: seq<T>, key: T -> Key)
    requires Elements(a) == Elements(b)
    requires KeyInjectiveOn(a, key)
    ensures SortedSet(a, key) == SortedSet(b, key)
  {
    DedupElements(a);
    DedupElements(b);
    var c := Dedup(a);
    forall x, y | x in c && y in c && key(x) == key(y)
      ensures x == y
    {
      DedupMember(a, x);
      DedupMember(a, y);
    }
    SortByCanonical(c, Dedup(b), key);
  }

  lemma {:induction false} TwoPlaces<T>(s: seq<T>, x: T) returns (i: nat, j: nat)
    requires multiset(s)[x] >= 2
    ensures i < j < |s| && s[i] == x && s[j] == x
  {
    assert s == [s[0]] + s[1..];
    if s[0] == x {
      assert x in multiset(s[1..]);
      i, j := 0, 0;
      j :| 0 <= j < |s[1..]| && s[1..][j] == x;
      j := j + 1;
    } else {
      i, j := TwoPlaces(s[1..], x);
      i, j := i + 1, j + 1;
    }
  }

  lemma {:induction false} CountTwo<T>(s: seq<T>, i: nat, j: nat)
    requires i < j < |s| && s[i] == s[j]
    ensures multiset(s)[s[i]] >= 2
  {
    assert s == s[..j] + s[j..];
    assert s[i] in multiset(s[..j]) by { assert s[..j][i] == s[i]; }
    assert s[i] in multiset(s[j..]) by { assert s[j..][0] == s[i]; }
  }

  /** Any two positions are related, in either order. */
  ghost predicate Pairwise<T(!new)>(s: seq<T>, related: (T, T) -> bool) {
    forall i, j :: 0 <= i < |s| && 0 <= j < |s| && i != j ==> related(s[i], s[j])
  }

  lemma PairwisePermutation<T(!new)>(a: seq<T>, b: seq<T>, related: (T, T) -> bool)
    requires multiset(a) == multiset(b) && Pairwise(a, related)
    ensures Pairwise(b, related)
  {
    forall i, j | 0 <= i < |b| && 0 <= j < |b| && i != j
      ensures related(b[i], b[j])
    {
      if b[i] == b[j] {
        CountTwo(b, if i < j then i else j, if i < j then j else i);
        var k, l := TwoPlaces(a, b[i]);
        assert related(a[k], a[l]);
      } else {
        assert b[i] in multiset(a) && b[j] in multiset(a);
        var k :| 0 <= k < |a| && a[k] == b[i];
        var l :| 0 <= l < |a| && a[l] == b[j];
        assert related(a[k], a[l]);
      }
    }
  }

  lemma SameMembers<T>(a: seq<T>, b: seq<T>, x: T)
    requires multiset(a) == multiset(b)
    ensures x in a <==> x in b
  {
    assert x in a <==> x in multiset(a);
    assert x in b <==> x in multiset(b);
  }
}
