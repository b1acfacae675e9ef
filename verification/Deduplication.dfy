/** Keeping the first of each key, as the normalising loops do with a `seen` set. */
module Deduplication {
  import opened Ordering

  function Keys<T>(key: T -> string, xs: seq<T>): set<string> {
    set i | 0 <= i < |xs| :: key(xs[i])
  }

  /** Of each key the first element, in order. */
  function FirstOfEach<T>(key: T -> string, xs: seq<T>): seq<T>
    decreases |xs|
  {
    if xs == [] then []
    else AddNew(key, FirstOfEach(key, xs[..|xs| - 1]), xs[|xs| - 1])
  }

  function AddNew<T>(key: T -> string, kept: seq<T>, x: T): seq<T> {
    if key(x) in Keys(key, kept) then kept else kept + [x]
  }

  /** x stands at i and nothing before it has its key. */
  ghost predicate FirstAt<T>(key: T -> string, xs: seq<T>, i: int, x: T) {
    0 <= i < |xs| && xs[i] == x && forall j | 0 <= j < i :: key(xs[j]) != key(x)
  }

  ghost predicate IsFirst<T>(key: T -> string, xs: seq<T>, x: T) {
    exists i :: FirstAt(key, xs, i, x)
  }

  lemma KeysOneMore<T>(key: T -> string, xs: seq<T>, x: T)
    ensures Keys(key, xs + [x]) == Keys(key, xs) + {key(x)}
  {
    var all := xs + [x];
    forall k ensures k in Keys(key, all) <==> k in Keys(key, xs) + {key(x)} {
      if k in Keys(key, xs) {
        var i :| 0 <= i < |xs| && key(xs[i]) == k;
        assert all[i] == xs[i];
      }
      assert all[|xs|] == x;
    }
  }

  lemma IsFirstOneMore<T>(key: T -> string, xs: seq<T>, x: T, y: T)
    ensures IsFirst(key, xs + [x], y) <==> IsFirst(key, xs, y) || (y == x && key(x) !in Keys(key, xs))
  {
    var all := xs + [x];
    assert all[|xs|] == x;
    forall i ensures FirstAt(key, all, i, y) <==>
      FirstAt(key, xs, i, y) || (i == |xs| && y == x && key(x) !in Keys(key, xs)) {
      forall j | 0 <= j < |xs| ensures all[j] == xs[j] && key(xs[j]) in Keys(key, xs) {}
    }
    if y == x && key(x) !in Keys(key, xs) {
      assert FirstAt(key, all, |xs|, y);
    }
  }

  /** No key twice, none lost, and an element is kept exactly when it is the first of its key. */
  lemma {:induction false} FirstOfEachExactly<T>(key: T -> string, xs: seq<T>)
    ensures DistinctKeys(key, FirstOfEach(key, xs))
    ensures Keys(key, FirstOfEach(key, xs)) == Keys(key, xs)
    ensures forall x :: x in FirstOfEach(key, xs) <==> IsFirst(key, xs, x)
    decreases |xs|
  {
    if xs != [] {
      var init, last := xs[..|xs| - 1], xs[|xs| - 1];
      var kept := FirstOfEach(key, init);
      assert xs == init + [last];
      FirstOfEachExactly(key, init);
      KeysOneMore(key, init, last);
      KeysOneMore(key, kept, last);
      forall x ensures x in FirstOfEach(key, xs) <==> IsFirst(key, xs, x) {
        IsFirstOneMore(key, init, last, x);
        assert x in kept <==> IsFirst(key, init, x);
      }
      forall i | 0 <= i < |kept| ensures key(kept[i]) in Keys(key, kept) {}
    }
  }

  /** Removing duplicates from a list before adding to it makes no difference. */
  lemma {:induction false} FirstOfEachInPieces<T>(key: T -> string, a: seq<T>, b: seq<T>)
    ensures FirstOfEach(key, FirstOfEach(key, a) + b) == FirstOfEach(key, a + b)
    decreases |b|
  {
    if b == [] {
      assert a + b == a && FirstOfEach(key, a) + b == FirstOfEach(key, a);
      FirstOfEachExactly(key, a);
      AlreadyFirst(key, FirstOfEach(key, a));
    } else {
      var init, last := b[..|b| - 1], b[|b| - 1];
      FirstOfEachInPieces(key, a, init);
      assert (a + b)[..|a + b| - 1] == a + init;
      var c := FirstOfEach(key, a);
      assert (c + b)[..|c + b| - 1] == c + init;
    }
  }

  lemma {:induction false} AlreadyFirst<T>(key: T -> string, xs: seq<T>)
    requires DistinctKeys(key, xs)
    ensures FirstOfEach(key, xs) == xs
    decreases |xs|
  {
    if xs != [] {
      var init, last := xs[..|xs| - 1], xs[|xs| - 1];
      assert xs == init + [last];
      assert DistinctKeys(key, init);
      AlreadyFirst(key, init);
      NewKey(key, init, last);
    }
  }

  lemma NewKey<T>(key: T -> string, init: seq<T>, last: T)
    requires DistinctKeys(key, init + [last])
    ensures key(last) !in Keys(key, init)
  {
    var xs := init + [last];
    forall i | 0 <= i < |init| ensures key(init[i]) != key(last) {
      assert xs[i] == init[i] && xs[|init|] == last;
      assert key(xs[i]) != key(xs[|init|]);
    }
  }

  // ---- cleaning and deduplicating ----

  /** The shape of both normalisers: clean every value, refuse the batch if one is refused, drop repeats. */
  method NormalizeAll<T>(clean: T -> Cleaned<T>, key: T -> string, values: seq<T>) returns (r: Cleaned<seq<T>>)
    ensures r == Normalize(clean, key, values)
  {
    var kept: seq<T> := [];
    var seen: set<string> := {};
    for i := 0 to |values|
      invariant Normalize(clean, key, values[..i]) == Fine(kept)
      invariant seen == Keys(key, kept)
    {
      assert values[..i + 1][..i] == values[..i];
      var value := clean(values[i]);
      if value.Bad? {
        RefusedStays(clean, key, values, i + 1);
        return Bad;
      }
      KeysOneMore(key, kept, value.value);
      if key(value.value) !in seen {
        seen := seen + {key(value.value)};
        kept := kept + [value.value];
      }
    }
    assert values[..|values|] == values;
    r := Fine(kept);
  }

  datatype Cleaned<T> = Fine(value: T) | Bad

  function Normalize<T>(clean: T -> Cleaned<T>, key: T -> string, values: seq<T>): Cleaned<seq<T>>
    decreases |values|
  {
    if values == [] then Fine([])
    else
      match Normalize(clean, key, values[..|values| - 1])
      case Bad => Bad
      case Fine(kept) =>
        match clean(values[|values| - 1])
        case Bad => Bad
        case Fine(value) => Fine(AddNew(key, kept, value))
  }

  lemma {:induction false} RefusedStays<T>(clean: T -> Cleaned<T>, key: T -> string, values: seq<T>, i: nat)
    requires i <= |values| && Normalize(clean, key, values[..i]).Bad?
    ensures Normalize(clean, key, values).Bad?
    decreases |values| - i
  {
    if i < |values| {
      assert values[..i + 1][..i] == values[..i];
      RefusedStays(clean, key, values, i + 1);
    } else {
      assert values[..i] == values;
    }
  }

  /** The values once cleaned; defined when none is refused. */
  function CleanAll<T>(clean: T -> Cleaned<T>, values: seq<T>): (r: seq<T>)
    requires forall i | 0 <= i < |values| :: clean(values[i]).Fine?
    ensures |r| == |values| && forall i | 0 <= i < |r| :: r[i] == clean(values[i]).value
  {
    seq(|values|, i requires 0 <= i < |values| => clean(values[i]).value)
  }

  /** A batch is accepted exactly when each value is, and gives the first of each key among the cleaned values. */
  lemma {:induction false} NormalizeExactly<T>(clean: T -> Cleaned<T>, key: T -> string, values: seq<T>)
    ensures Normalize(clean, key, values).Fine? <==> forall i | 0 <= i < |values| :: clean(values[i]).Fine?
    ensures Normalize(clean, key, values).Fine? ==>
              Normalize(clean, key, values).value == FirstOfEach(key, CleanAll(clean, values))
    decreases |values|
  {
    if values != [] {
      var init, last := values[..|values| - 1], values[|values| - 1];
      NormalizeExactly(clean, key, init);
      if Normalize(clean, key, init).Fine? && clean(last).Fine? {
        assert CleanAll(clean, values)[..|values| - 1] == CleanAll(clean, init);
      }
    }
  }

  /** Values that cleaning leaves as they are, none twice: what a normaliser returns. */
  ghost predicate Normal<T(!new)>(clean: T -> Cleaned<T>, key: T -> string, values: seq<T>) {
    DistinctKeys(key, values) && forall x | x in values :: clean(x) == Fine(x)
  }

  ghost predicate Settles<T(!new)>(clean: T -> Cleaned<T>) {
    forall x :: clean(x).Fine? ==> clean(clean(x).value) == clean(x)
  }

  lemma NormalizedIsNormal<T(!new)>(clean: T -> Cleaned<T>, key: T -> string, values: seq<T>)
    requires Settles(clean) && Normalize(clean, key, values).Fine?
    ensures Normal(clean, key, Normalize(clean, key, values).value)
  {
    NormalizeExactly(clean, key, values);
    var all := CleanAll(clean, values);
    FirstOfEachExactly(key, all);
    forall x | x in FirstOfEach(key, all) ensures clean(x) == Fine(x) {
      assert IsFirst(key, all, x);
    }
  }

  /** Normalising the join of two normal lists cannot fail, and only drops the second list's repeats. */
  lemma NormalizeJoin<T(!new)>(clean: T -> Cleaned<T>, key: T -> string, a: seq<T>, b: seq<T>)
    requires Normal(clean, key, a) && Normal(clean, key, b)
    ensures Normalize(clean, key, a + b) == Fine(FirstOfEach(key, a + b))
    ensures Normal(clean, key, FirstOfEach(key, a + b))
  {
    NormalizeExactly(clean, key, a + b);
    forall i | 0 <= i < |a + b| ensures clean((a + b)[i]) == Fine((a + b)[i]) {
      assert (a + b)[i] in a || (a + b)[i] in b;
    }
    assert CleanAll(clean, a + b) == a + b;
    FirstOfEachExactly(key, a + b);
    forall x | x in FirstOfEach(key, a + b) ensures clean(x) == Fine(x) {
      assert IsFirst(key, a + b, x);
    }
  }
}
