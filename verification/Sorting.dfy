/** Sorting by a string key, as sort.Slice is used to make the input set canonical. */
module Sorting {
  import opened Prelude

  /** Byte order on strings. */
  predicate LexLess(a: string, b: string) {
    if b == "" then false
    else if a == "" then true
    else a[0] < b[0] || (a[0] == b[0] && LexLess(a[1..], b[1..]))
  }

  lemma {:induction false} LexTotal(a: string, b: string)
    ensures a == b || LexLess(a, b) || LexLess(b, a)
    ensures !(LexLess(a, b) && LexLess(b, a))
    ensures !LexLess(a, a)
  {
    if a != "" && b != "" {
      LexTotal(a[1..], b[1..]);
      assert a == [a[0]] + a[1..] && b == [b[0]] + b[1..];
    }
    if a != "" {
      LexTotal(a[1..], a[1..]);
    }
  }

  lemma {:induction false} LexTransitive(a: string, b: string, c: string)
    requires !LexLess(b, a) && !LexLess(c, b)
    ensures !LexLess(c, a)
  {
    if a != "" && b != "" && c != "" && a[0] == b[0] == c[0] {
      LexTransitive(a[1..], b[1..], c[1..]);
    }
  }

  function Insert<T>(x: T, s: seq<T>, key: T -> string): seq<T> {
    if s != [] && LexLess(key(s[0]), key(x)) then [s[0]] + Insert(x, s[1..], key)
    else [x] + s
  }

  function Sort<T>(s: seq<T>, key: T -> string): seq<T> {
    if s == [] then [] else Insert(s[0], Sort(s[1..], key), key)
  }

  ghost predicate SortedBy<T>(s: seq<T>, key: T -> string) {
    forall i, j :: 0 <= i < j < |s| ==> !LexLess(key(s[j]), key(s[i]))
  }

  ghost predicate DistinctBy<T>(s: seq<T>, key: T -> string) {
    forall i, j :: 0 <= i < j < |s| ==> key(s[i]) != key(s[j])
  }

  lemma {:induction false} InsertResult<T>(x: T, s: seq<T>, key: T -> string)
    requires SortedBy(s, key)
    ensures multiset(Insert(x, s, key)) == multiset(s) + multiset{x}
    ensures SortedBy(Insert(x, s, key), key)
  {
    if s != [] && LexLess(key(s[0]), key(x)) {
      InsertResult(x, s[1..], key);
      var rest := Insert(x, s[1..], key);
      assert s == [s[0]] + s[1..];
      forall j | 0 <= j < |rest| ensures !LexLess(key(rest[j]), key(s[0])) {
        assert rest[j] in multiset(rest);
        LexTotal(key(s[0]), key(x));
      }
    } else {
      forall j | 0 <= j < |s| ensures !LexLess(key(s[j]), key(x)) {
        if j > 0 {
          LexTransitive(key(x), key(s[0]), key(s[j]));
        }
      }
    }
  }

  lemma {:induction false} SortResult<T>(s: seq<T>, key: T -> string)
    ensures multiset(Sort(s, key)) == multiset(s)
    ensures SortedBy(Sort(s, key), key)
  {
    if s != [] {
      SortResult(s[1..], key);
      InsertResult(s[0], Sort(s[1..], key), key);
      assert s == [s[0]] + s[1..];
    }
  }

  lemma MultisetWithout<T>(s: seq<T>, i: int)
    requires 0 <= i < |s|
    ensures multiset(s[..i] + s[i + 1..]) == multiset(s) - multiset{s[i]}
  {
    assert s == s[..i] + [s[i]] + s[i + 1..];
  }

  lemma SameHead<T>(a: seq<T>, b: seq<T>, key: T -> string)
    requires SortedBy(a, key) && SortedBy(b, key) && DistinctBy(b, key)
    requires multiset(a) == multiset(b) && a != [] && b != []
    ensures a[0] == b[0]
  {
    assert a[0] in multiset(b) && b[0] in multiset(a);
    var i :| 0 <= i < |b| && b[i] == a[0];
    var j :| 0 <= j < |a| && a[j] == b[0];
    LexTotal(key(a[0]), key(b[0]));
  }

  lemma SortedTail<T>(s: seq<T>, key: T -> string)
    requires s != []
    ensures multiset(s[1..]) == multiset(s) - multiset{s[0]}
    ensures SortedBy(s, key) ==> SortedBy(s[1..], key)
    ensures DistinctBy(s, key) ==> DistinctBy(s[1..], key)
  {
    assert s == [s[0]] + s[1..];
  }

  /** With distinct keys there is one sorted arrangement, so the sorting algorithm does not matter. */
  lemma {:induction false} SortedUnique<T>(a: seq<T>, b: seq<T>, key: T -> string)
    requires SortedBy(a, key) && SortedBy(b, key) && DistinctBy(b, key)
    requires multiset(a) == multiset(b)
    ensures a == b
  {
    assert |multiset(a)| == |a| && |multiset(b)| == |b|;
    if a != [] {
      SameHead(a, b, key);
      SortedTail(a, key);
      SortedTail(b, key);
      SortedUnique(a[1..], b[1..], key);
      assert a == [a[0]] + a[1..] && b == [b[0]] + b[1..];
    }
  }

  lemma {:induction false} DistinctByPermutation<T>(a: seq<T>, b: seq<T>, key: T -> string)
    requires multiset(a) == multiset(b) && DistinctBy(b, key)
    ensures DistinctBy(a, key)
  {
    assert Distinct(b);
    DistinctFromMultiset(a, b);
    forall i, j | 0 <= i < j < |a| ensures key(a[i]) != key(a[j]) {
      assert a[i] in multiset(b) && a[j] in multiset(b);
      var i' :| 0 <= i' < |b| && b[i'] == a[i];
      var j' :| 0 <= j' < |b| && b[j'] == a[j];
    }
  }

  function Image<T, U>(s: seq<T>, f: T -> U): seq<U> {
    seq(|s|, i requires 0 <= i < |s| => f(s[i]))
  }

  lemma ImageWithout<T, U>(s: seq<T>, i: int, f: T -> U)
    requires 0 <= i < |s|
    ensures multiset(Image(s, f)) == multiset(Image(s[..i] + s[i + 1..], f)) + multiset{f(s[i])}
  {
    var t := Image(s, f);
    assert Image(s[..i] + s[i + 1..], f) == t[..i] + t[i + 1..];
    MultisetWithout(t, i);
    assert f(s[i]) == t[i];
  }

  lemma {:induction false} ImageMultiset<T, U>(a: seq<T>, b: seq<T>, f: T -> U)
    requires multiset(a) == multiset(b)
    ensures multiset(Image(a, f)) == multiset(Image(b, f))
    decreases |a|
  {
    assert |multiset(a)| == |a| && |multiset(b)| == |b|;
    if a != [] {
      assert a[0] in multiset(b);
      var i :| 0 <= i < |b| && b[i] == a[0];
      MultisetWithout(a, 0);
      MultisetWithout(b, i);
      ImageMultiset(a[..0] + a[1..], b[..i] + b[i + 1..], f);
      ImageWithout(a, 0, f);
      ImageWithout(b, i, f);
    }
  }
}
