/** Sequence operations the pipeline is built from: pandas boolean filtering,
    list flattening and `drop_duplicates(keep='first')`. */
module Seqs {

  /** Python's `min` on two integers. */
  function Min(a: int, b: int): int {
    if a <= b then a else b
  }

  /** No element occurs twice. */
  ghost predicate Distinct<T>(s: seq<T>) {
    forall i, j :: 0 <= i < j < |s| ==> s[i] != s[j]
  }

  /** The elements of `s` satisfying `p`, in their original order. */
  function Filter<T(!new)>(s: seq<T>, p: T -> bool): (r: seq<T>)
    ensures |r| <= |s|
    ensures forall x {:trigger x in r} :: x in r <==> x in s && p(x)
  {
    if s == [] then []
    else
      assert forall x :: x in s <==> x in s[..|s| - 1] || x == s[|s| - 1];
      Filter(s[..|s| - 1], p) + (if p(s[|s| - 1]) then [s[|s| - 1]] else [])
  }

  /** Filtering distributes over concatenation, so it keeps relative order. */
  lemma {:induction false} FilterConcat<T(!new)>(a: seq<T>, b: seq<T>, p: T -> bool)
    ensures Filter(a + b, p) == Filter(a, p) + Filter(b, p)
    decreases |b|
  {
    if b == [] {
      assert a + b == a;
    } else {
      var b' := b[..|b| - 1];
      assert (a + b)[..|a + b| - 1] == a + b';
      FilterConcat(a, b', p);
    }
  }

  /** Applies `f` to every element. */
  function MapSeq<T, U>(s: seq<T>, f: T -> U): (r: seq<U>)
    ensures |r| == |s|
    ensures forall i :: 0 <= i < |s| ==> r[i] == f(s[i])
  {
    seq(|s|, i requires 0 <= i < |s| => f(s[i]))
  }

  /** Concatenates a sequence of sequences. */
  function Flatten<T>(ss: seq<seq<T>>): seq<T> {
    if ss == [] then [] else Flatten(ss[..|ss| - 1]) + ss[|ss| - 1]
  }

  /** An element of the flattening comes from one of the parts, and every part's elements are in it. */
  lemma {:induction false} FlattenMember<T>(ss: seq<seq<T>>, x: T)
    ensures x in Flatten(ss) <==> exists j :: 0 <= j < |ss| && x in ss[j]
    decreases |ss|
  {
    if ss != [] {
      var init := ss[..|ss| - 1];
      FlattenMember(init, x);
      if x in Flatten(ss) {
        if x in Flatten(init) {
          var j :| 0 <= j < |init| && x in init[j];
          assert ss[j] == init[j];
        } else {
          assert x in ss[|ss| - 1];
        }
      }
      if exists j :: 0 <= j < |ss| && x in ss[j] {
        var j :| 0 <= j < |ss| && x in ss[j];
        if j < |init| {
          assert init[j] == ss[j];
        }
      }
    }
  }

  /** The set of keys of the elements of `s`. */
  function Keys<T(==), K>(s: seq<T>, key: T -> K): set<K> {
    set x | x in s :: key(x)
  }

  /** The position of the first element of `s` whose key is `k`. */
  ghost function FirstIndex<T, K>(s: seq<T>, key: T -> K, k: K): (r: nat)
    requires k in Keys(s, key)
    ensures r < |s| && key(s[r]) == k
    ensures forall j :: 0 <= j < r ==> key(s[j]) != k
  {
    if key(s[0]) == k then 0
    else
      assert k in Keys(s[1..], key) by {
        var x :| x in s && key(x) == k;
        var i :| 0 <= i < |s| && s[i] == x;
        assert i != 0;
        assert s[1..][i - 1] == x;
      }
      1 + FirstIndex(s[1..], key, k)
  }

  /** The first-index specification has one solution. */
  lemma FirstIndexUnique<T, K>(s: seq<T>, key: T -> K, k: K, r: nat)
    requires r < |s| && key(s[r]) == k
    requires forall j :: 0 <= j < r ==> key(s[j]) != k
    ensures k in Keys(s, key) && FirstIndex(s, key, k) == r
  {
    assert s[r] in s;
  }

  /** Appending elements does not move the first occurrence of a key already present. */
  lemma FirstIndexExtend<T, K>(a: seq<T>, b: seq<T>, key: T -> K, k: K)
    requires k in Keys(a, key)
    ensures k in Keys(a + b, key) && FirstIndex(a + b, key, k) == FirstIndex(a, key, k)
  {
    var r := FirstIndex(a, key, k);
    assert (a + b)[r] == a[r];
    FirstIndexUnique(a + b, key, k, r);
  }

  /** `drop_duplicates(subset=key, keep='first')`: scans left to right and keeps an
      element only when no earlier element had the same key. */
  function Dedup<T(!new,==), K(==)>(s: seq<T>, key: T -> K): (r: seq<T>)
    ensures |r| <= |s|
    ensures DedupSpec(s, key, r)
    decreases |s|
  {
    if s == [] then []
    else
      var init, x := s[..|s| - 1], s[|s| - 1];
      assert s == init + [x];
      var d := Dedup(init, key);
      DedupStep(init, x, key, d);
      if key(x) in Keys(d, key) then d else d + [x]
  }

  /** The contract of `Dedup`, stated of a candidate result `r` for input `s`. */
  ghost predicate DedupSpec<T(!new), K>(s: seq<T>, key: T -> K, r: seq<T>) {
    && (forall y {:trigger y in r} :: y in r ==> y in s)
    && Keys(r, key) == Keys(s, key)
    && (forall i, j :: 0 <= i < j < |r| ==> key(r[i]) != key(r[j]))
    && (forall y {:trigger y in r} :: y in r ==> y == s[FirstIndex(s, key, key(y))])
    && (forall i, j :: 0 <= i < j < |r| ==>
          FirstIndex(s, key, key(r[i])) < FirstIndex(s, key, key(r[j])))
  }

  /** The inductive step of `Dedup`: from the contract for `init` to the contract for `init + [x]`. */
  lemma DedupStep<T(!new), K>(init: seq<T>, x: T, key: T -> K, d: seq<T>)
    requires DedupSpec(init, key, d)
    ensures DedupSpec(init + [x], key, if key(x) in Keys(d, key) then d else d + [x])
  {
    var s := init + [x];
    assert Keys(s, key) == Keys(init, key) + {key(x)} by {
      assert forall y :: y in s <==> y in init || y == x;
    }
    forall y | y in d
      ensures FirstIndex(s, key, key(y)) == FirstIndex(init, key, key(y))
    {
      FirstIndexExtend(init, [x], key, key(y));
    }
    if key(x) in Keys(d, key) {
      DedupStepKeep(init, x, key, d);
    } else {
      DedupStepAppend(init, x, key, d);
    }
  }

  lemma DedupStepKeep<T(!new), K>(init: seq<T>, x: T, key: T -> K, d: seq<T>)
    requires DedupSpec(init, key, d)
    requires key(x) in Keys(d, key)
    requires forall y | y in d :: FirstIndex(init + [x], key, key(y)) == FirstIndex(init, key, key(y))
    requires Keys(init + [x], key) == Keys(init, key) + {key(x)}
    ensures DedupSpec(init + [x], key, d)
  {
    var s := init + [x];
    forall y | y in d ensures y == s[FirstIndex(s, key, key(y))] {
      assert s[FirstIndex(init, key, key(y))] == init[FirstIndex(init, key, key(y))];
    }
    forall i, j | 0 <= i < j < |d|
      ensures FirstIndex(s, key, key(d[i])) < FirstIndex(s, key, key(d[j]))
    {
      assert d[i] in d && d[j] in d;
    }
  }

  lemma DedupStepAppend<T(!new), K>(init: seq<T>, x: T, key: T -> K, d: seq<T>)
    requires DedupSpec(init, key, d)
    requires key(x) !in Keys(d, key)
    requires forall y | y in d :: FirstIndex(init + [x], key, key(y)) == FirstIndex(init, key, key(y))
    requires Keys(init + [x], key) == Keys(init, key) + {key(x)}
    ensures DedupSpec(init + [x], key, d + [x])
  {
    var s, r := init + [x], d + [x];
    FirstIndexUnique(s, key, key(x), |init|);
    assert forall y :: y in r <==> y in d || y == x;
    assert Keys(r, key) == Keys(d, key) + {key(x)};
    forall y | y in r ensures y == s[FirstIndex(s, key, key(y))] {
      if y in d {
        assert s[FirstIndex(init, key, key(y))] == init[FirstIndex(init, key, key(y))];
      }
    }
    forall i, j | 0 <= i < j < |r|
      ensures key(r[i]) != key(r[j])
      ensures FirstIndex(s, key, key(r[i])) < FirstIndex(s, key, key(r[j]))
    {
      assert r[i] == d[i] && d[i] in d;
      if j < |d| {
        assert r[j] == d[j] && d[j] in d;
      } else {
        assert key(d[i]) in Keys(d, key);
      }
    }
  }

  /** The keys of a concatenation are the keys of its parts. */
  lemma KeysConcat<T, K>(a: seq<T>, b: seq<T>, key: T -> K)
    ensures Keys(a + b, key) == Keys(a, key) + Keys(b, key)
  {
    assert forall x :: x in a + b <==> x in a || x in b;
  }

  /** The first occurrence of a key the first part lacks lies in the second part. */
  lemma FirstIndexSecond<T, K>(a: seq<T>, b: seq<T>, key: T -> K, k: K)
    requires k !in Keys(a, key) && k in Keys(b, key)
    ensures k in Keys(a + b, key)
    ensures FirstIndex(a + b, key, k) == |a| + FirstIndex(b, key, k)
  {
    var r := FirstIndex(b, key, k);
    assert (a + b)[|a| + r] == b[r];
    forall j | 0 <= j < |a| + r ensures key((a + b)[j]) != k {
      if j < |a| {
        assert (a + b)[j] == a[j] && a[j] in a;
      } else {
        assert (a + b)[j] == b[j - |a|];
      }
    }
    FirstIndexUnique(a + b, key, k, |a| + r);
  }

  /** `pd.concat([a, b]).drop_duplicates(keep='first')`: every key of either part survives
      exactly once, and the survivor is the first element with that key of the first part
      that has it, so `a` wins over `b`. */
  lemma DedupConcat<T(!new), K>(a: seq<T>, b: seq<T>, key: T -> K)
    ensures Keys(Dedup(a + b, key), key) == Keys(a, key) + Keys(b, key)
    ensures forall i, j :: 0 <= i < j < |Dedup(a + b, key)| ==>
      key(Dedup(a + b, key)[i]) != key(Dedup(a + b, key)[j])
    ensures forall y :: y in Dedup(a + b, key) && key(y) in Keys(a, key) ==>
      y == a[FirstIndex(a, key, key(y))]
    ensures forall y :: y in Dedup(a + b, key) && key(y) !in Keys(a, key) ==>
      y == b[FirstIndex(b, key, key(y))]
  {
    var s := a + b;
    var r := Dedup(s, key);
    KeysConcat(a, b, key);
    forall y | y in r
      ensures key(y) in Keys(a, key) ==> y == a[FirstIndex(a, key, key(y))]
      ensures key(y) !in Keys(a, key) ==> y == b[FirstIndex(b, key, key(y))]
    {
      assert key(y) in Keys(s, key);
      if key(y) in Keys(a, key) {
        FirstIndexExtend(a, b, key, key(y));
        assert s[FirstIndex(a, key, key(y))] == a[FirstIndex(a, key, key(y))];
      } else {
        FirstIndexSecond(a, b, key, key(y));
        assert s[|a| + FirstIndex(b, key, key(y))] == b[FirstIndex(b, key, key(y))];
      }
    }
  }

  /** A duplicate-free sequence has as many elements as its set. */
  lemma {:induction false} DistinctCard<T>(s: seq<T>)
    requires Distinct(s)
    ensures |set x | x in s| == |s|
    decreases |s|
  {
    if s != [] {
      var init := s[..|s| - 1];
      DistinctCard(init);
      assert (set x | x in s) == (set x | x in init) + {s[|s| - 1]};
      assert s[|s| - 1] !in init;
    }
  }

  /** Every duplicate-free sequence drawn from a set is at most as long as the set. */
  lemma DistinctWithin<T>(s: seq<T>, u: set<T>)
    requires Distinct(s)
    requires forall x :: x in s ==> x in u
    ensures |s| <= |u|
  {
    DistinctCard(s);
    SubsetCard((set x | x in s), u);
  }

  /** A subset is no larger than its superset. */
  lemma SubsetCard<T>(a: set<T>, b: set<T>)
    requires a <= b
    ensures |a| <= |b|
  {
    assert b == a + (b - a);
  }

  /** A set without members is empty. */
  lemma NoMembers(s: set<int>)
    requires forall x :: x !in s
    ensures s == {}
  {
    assert forall x :: x in s <==> x in {};
  }

  /** A non-empty set has a member, so a such-that choice from it succeeds. */
  lemma SetMember(s: set<int>)
    requires s != {}
    ensures exists x :: x in s
  {
    if forall x :: x !in s {
      NoMembers(s);
      assert false;
    }
  }

  /** Deduplicating on an injective key drops exactly the repeated elements. */
  lemma DedupInjective<T(!new), K>(s: seq<T>, key: T -> K)
    requires forall x, y :: key(x) == key(y) ==> x == y
    ensures Distinct(Dedup(s, key))
    ensures forall x :: x in Dedup(s, key) <==> x in s
  {
    var r := Dedup(s, key);
    forall x | x in s ensures x in r {
      assert key(x) in Keys(s, key);
      var y :| y in r && key(y) == key(x);
    }
  }

  /** An element occurs at most once in a duplicate-free sequence. */
  lemma {:induction false} AtMostOnce<T>(s: seq<T>, x: T)
    requires Distinct(s)
    ensures multiset(s)[x] <= 1
    decreases |s|
  {
    if s != [] {
      var init := s[..|s| - 1];
      assert s == init + [s[|s| - 1]];
      AtMostOnce(init, x);
      if x == s[|s| - 1] {
        assert x !in init;
      }
    }
  }

  /** A reordering of a duplicate-free sequence is duplicate-free and has the same elements. */
  lemma DistinctPermutation<T>(s: seq<T>, r: seq<T>)
    requires Distinct(s) && multiset(r) == multiset(s)
    ensures Distinct(r)
    ensures forall x :: x in r <==> x in s
  {
    forall i, j | 0 <= i < j < |r| ensures r[i] != r[j] {
      if r[i] == r[j] {
        var x := r[i];
        assert r == r[..j] + r[j..];
        assert x in r[..j] && x in r[j..];
        assert multiset(r)[x] >= 2;
        AtMostOnce(s, x);
      }
    }
    assert forall x :: x in r <==> x in multiset(r);
  }

  /** Filtering with a predicate every element meets changes nothing. */
  lemma {:induction false} FilterAll<T(!new)>(s: seq<T>, p: T -> bool)
    requires forall x :: x in s ==> p(x)
    ensures Filter(s, p) == s
    decreases |s|
  {
    if s != [] {
      var init, x := s[..|s| - 1], s[|s| - 1];
      assert x in s;
      forall y | y in init ensures p(y) {
        assert y in s;
      }
      FilterAll(init, p);
      assert init + [x] == s;
    }
  }
}
