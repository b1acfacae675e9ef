/** Byte-wise string order and sorting by it, as sort.Strings and sort.Slice do. */
module Ordering {

  predicate Leq(a: string, b: string) {
    a == "" || (b != "" && (a[0] < b[0] || (a[0] == b[0] && Leq(a[1..], b[1..]))))
  }

  lemma {:induction false} LeqTotal(a: string, b: string)
    ensures Leq(a, b) || Leq(b, a)
  {
    if a != "" && b != "" && a[0] == b[0] {
      LeqTotal(a[1..], b[1..]);
    }
  }

  lemma {:induction false} LeqAntisymmetric(a: string, b: string)
    requires Leq(a, b) && Leq(b, a)
    ensures a == b
  {
    if a != "" && b != "" {
      LeqAntisymmetric(a[1..], b[1..]);
      assert a == [a[0]] + a[1..] && b == [b[0]] + b[1..];
    }
  }

  lemma {:induction false} LeqTransitive(a: string, b: string, c: string)
    requires Leq(a, b) && Leq(b, c)
    ensures Leq(a, c)
  {
    if a != "" && a[0] == b[0] && b[0] == c[0] {
      LeqTransitive(a[1..], b[1..], c[1..]);
    }
  }

  predicate SortedBy<T>(key: T -> string, xs: seq<T>) {
    forall i, j | 0 <= i < j < |xs| :: Leq(key(xs[i]), key(xs[j]))
  }

  function Insert<T>(key: T -> string, x: T, xs: seq<T>): seq<T> {
    if xs == [] || Leq(key(x), key(xs[0])) then [x] + xs else [xs[0]] + Insert(key, x, xs[1..])
  }

  function SortBy<T>(key: T -> string, xs: seq<T>): seq<T> {
    if xs == [] then [] else Insert(key, xs[0], SortBy(key, xs[1..]))
  }

  lemma {:induction false} InsertPermutes<T>(key: T -> string, x: T, xs: seq<T>)
    ensures multiset(Insert(key, x, xs)) == multiset(xs) + multiset{x}
    decreases |xs|
  {
    if xs != [] && !Leq(key(x), key(xs[0])) {
      InsertPermutes(key, x, xs[1..]);
      assert xs == [xs[0]] + xs[1..];
    }
  }

  lemma {:induction false} SortPermutes<T>(key: T -> string, xs: seq<T>)
    ensures multiset(SortBy(key, xs)) == multiset(xs)
    decreases |xs|
  {
    if xs != [] {
      SortPermutes(key, xs[1..]);
      InsertPermutes(key, xs[0], SortBy(key, xs[1..]));
      assert xs == [xs[0]] + xs[1..];
    }
  }

  lemma SameMembers<T>(a: seq<T>, b: seq<T>)
    requires multiset(a) == multiset(b)
    ensures |a| == |b| && forall x :: x in a <==> x in b
  {
    assert |multiset(a)| == |a| && |multiset(b)| == |b|;
    forall x ensures x in a <==> x in b {
      assert x in a <==> x in multiset(a);
      assert x in b <==> x in multiset(b);
    }
  }

  lemma {:induction false} InsertSorts<T>(key: T -> string, x: T, xs: seq<T>)
    requires SortedBy(key, xs)
    ensures SortedBy(key, Insert(key, x, xs))
    decreases |xs|
  {
    var r := Insert(key, x, xs);
    if xs != [] {
      LeqTotal(key(x), key(xs[0]));
      if Leq(key(x), key(xs[0])) {
        forall j | 0 < j < |r| ensures Leq(key(r[0]), key(r[j])) {
          if j > 1 {
            LeqTransitive(key(x), key(xs[0]), key(xs[j - 1]));
          }
        }
      } else {
        var rest := Insert(key, x, xs[1..]);
        InsertSorts(key, x, xs[1..]);
        InsertPermutes(key, x, xs[1..]);
        forall j | 0 < j < |r| ensures Leq(key(r[0]), key(r[j])) {
          assert r[j] == rest[j - 1];
          assert rest[j - 1] in multiset(rest);
          assert rest[j - 1] == x || rest[j - 1] in xs[1..];
        }
      }
    }
  }

  lemma {:induction false} SortSorts<T>(key: T -> string, xs: seq<T>)
    ensures SortedBy(key, SortBy(key, xs))
    decreases |xs|
  {
    if xs != [] {
      SortSorts(key, xs[1..]);
      InsertSorts(key, xs[0], SortBy(key, xs[1..]));
    }
  }

  predicate DistinctKeys<T>(key: T -> string, xs: seq<T>) {
    forall i, j | 0 <= i < j < |xs| :: key(xs[i]) != key(xs[j])
  }

  lemma Tail<T>(key: T -> string, xs: seq<T>)
    requires xs != [] && SortedBy(key, xs)
    ensures xs == [xs[0]] + xs[1..]
    ensures multiset(xs[1..]) == multiset(xs) - multiset{xs[0]}
    ensures SortedBy(key, xs[1..])
    ensures DistinctKeys(key, xs) ==> DistinctKeys(key, xs[1..])
  {
    assert xs == [xs[0]] + xs[1..];
  }

  lemma SortedHeadsAgree<T>(key: T -> string, a: seq<T>, b: seq<T>)
    requires SortedBy(key, a) && SortedBy(key, b) && DistinctKeys(key, a)
    requires a != [] && b != [] && a[0] in b && b[0] in a
    ensures a[0] == b[0]
  {
    var i :| 0 <= i < |b| && b[i] == a[0];
    var j :| 0 <= j < |a| && a[j] == b[0];
    if 0 < i && 0 < j {
      LeqAntisymmetric(key(a[0]), key(b[0]));
      assert false;
    }
  }

  /** With distinct keys there is one sorted arrangement, so any correct sort gives this one. */
  lemma {:induction false} SortedIsUnique<T>(key: T -> string, a: seq<T>, b: seq<T>)
    requires SortedBy(key, a) && SortedBy(key, b) && multiset(a) == multiset(b) && DistinctKeys(key, a)
    ensures a == b
    decreases |a|
  {
    SameMembers(a, b);
    if a != [] {
      assert a[0] in b && b[0] in a;
      SortedHeadsAgree(key, a, b);
      Tail(key, a);
      Tail(key, b);
      SortedIsUnique(key, a[1..], b[1..]);
    }
  }

  lemma TwiceCounts<T>(xs: seq<T>, i: nat, j: nat)
    requires i < j < |xs| && xs[i] == xs[j]
    ensures multiset(xs)[xs[i]] >= 2
  {
    assert xs == xs[..i] + [xs[i]] + xs[i + 1..j] + [xs[j]] + xs[j + 1..];
  }

  lemma {:induction false} DistinctCounts<T>(key: T -> string, xs: seq<T>, x: T)
    requires DistinctKeys(key, xs)
    ensures multiset(xs)[x] <= 1
    decreases |xs|
  {
    if xs != [] {
      assert xs == [xs[0]] + xs[1..];
      DistinctCounts(key, xs[1..], x);
      forall i | 0 <= i < |xs[1..]| ensures xs[1..][i] != xs[0] {
        assert key(xs[0]) != key(xs[i + 1]);
      }
    }
  }

  /** Distinct keys stay distinct under any rearrangement. */
  lemma DistinctSurvives<T>(key: T -> string, a: seq<T>, b: seq<T>)
    requires DistinctKeys(key, a) && multiset(a) == multiset(b)
    ensures DistinctKeys(key, b)
  {
    SameMembers(a, b);
    forall i, j | 0 <= i < j < |b| ensures key(b[i]) != key(b[j]) {
      DistinctCounts(key, a, b[i]);
      if b[i] == b[j] {
        TwiceCounts(b, i, j);
        assert false;
      }
      assert b[i] in a && b[j] in a;
      var k :| 0 <= k < |a| && a[k] == b[i];
      var l :| 0 <= l < |a| && a[l] == b[j];
      assert k < l || l < k;
    }
  }

  lemma SameMultiset<T>(key: T -> string, a: seq<T>, b: seq<T>)
    requires DistinctKeys(key, a) && DistinctKeys(key, b) && forall x :: x in a <==> x in b
    ensures multiset(a) == multiset(b)
  {
    forall x ensures multiset(a)[x] == multiset(b)[x] {
      DistinctCounts(key, a, x);
      DistinctCounts(key, b, x);
      assert x in multiset(a) <==> x in a;
      assert x in multiset(b) <==> x in b;
    }
  }

  /** Two sorted lists with distinct keys and the same members are the same list. */
  lemma SortedListIsItsMembers<T>(key: T -> string, a: seq<T>, b: seq<T>)
    requires SortedBy(key, a) && DistinctKeys(key, a) && SortedBy(key, b) && DistinctKeys(key, b)
    requires forall x :: x in a <==> x in b
    ensures a == b
  {
    SameMultiset(key, a, b);
    SortedIsUnique(key, a, b);
  }

  function Itself(s: string): string {
    s
  }
}
