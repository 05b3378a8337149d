/** Stable sorting (pandas' multi-key `sort_values(by=[...])`, Python `sorted`) and
    Python's string order. */
module Sorting {
  import opened Seqs

  /** `le` is total and transitive: a comparison `sorted`/`sort_values` can use. */
  ghost predicate TotalPreorder<T(!new)>(le: (T, T) -> bool) {
    && (forall a, b :: le(a, b) || le(b, a))
    && (forall a, b, c :: le(a, b) && le(b, c) ==> le(a, c))
  }

  /** Every element is `le` every later one. */
  ghost predicate SortedBy<T>(s: seq<T>, le: (T, T) -> bool) {
    forall i, j :: 0 <= i < j < |s| ==> le(s[i], s[j])
  }

  /** The elements of `s` that compare equal to `z`, in their order in `s`.
      A sort is stable when it leaves every such class in its input order. */
  function Class<T(!new)>(s: seq<T>, le: (T, T) -> bool, z: T): seq<T> {
    Filter(s, y => le(z, y) && le(y, z))
  }

  lemma ClassConcat<T(!new)>(a: seq<T>, b: seq<T>, le: (T, T) -> bool, z: T)
    ensures Class(a + b, le, z) == Class(a, le, z) + Class(b, le, z)
  {
    FilterConcat(a, b, y => le(z, y) && le(y, z));
  }

  /** Places `x` after every leading element that is `le` it. */
  function Insert<T>(t: seq<T>, x: T, le: (T, T) -> bool): seq<T> {
    if t == [] then [x]
    else if le(t[0], x) then [t[0]] + Insert(t[1..], x, le)
    else [x] + t
  }

  lemma {:induction false} InsertPermutes<T>(t: seq<T>, x: T, le: (T, T) -> bool)
    ensures multiset(Insert(t, x, le)) == multiset(t) + multiset{x}
    decreases |t|
  {
    if t != [] && le(t[0], x) {
      InsertPermutes(t[1..], x, le);
      assert t == [t[0]] + t[1..];
    }
  }

  lemma {:induction false} InsertSorted<T(!new)>(t: seq<T>, x: T, le: (T, T) -> bool)
    requires TotalPreorder(le)
    requires SortedBy(t, le)
    ensures SortedBy(Insert(t, x, le), le)
    decreases |t|
  {
    if t != [] && le(t[0], x) {
      InsertSorted(t[1..], x, le);
      InsertPermutes(t[1..], x, le);
      var r := Insert(t, x, le);
      forall j | 1 <= j < |r| ensures le(t[0], r[j]) {
        assert r[j] in multiset(Insert(t[1..], x, le));
        assert r[j] in multiset(t[1..]) + multiset{x};
        if r[j] != x {
          assert r[j] in t[1..];
        }
      }
    }
  }

  /** Inserting into a sorted sequence appends `x` to the end of its class. */
  lemma {:induction false} InsertClass<T(!new)>(t: seq<T>, x: T, le: (T, T) -> bool, z: T)
    requires TotalPreorder(le)
    requires SortedBy(t, le)
    ensures Class(Insert(t, x, le), le, z)
         == Class(t, le, z) + Class([x], le, z)
    decreases |t|
  {
    if t == [] {
      assert [x] == [] + [x];
    } else if le(t[0], x) {
      var t' := t[1..];
      assert SortedBy(t', le) by {
        forall i, j | 0 <= i < j < |t'| ensures le(t'[i], t'[j]) {
          assert t'[i] == t[i + 1] && t'[j] == t[j + 1];
        }
      }
      InsertClass(t', x, le, z);
      ClassConcat([t[0]], Insert(t', x, le), le, z);
      ClassConcat([t[0]], t', le, z);
      assert t == [t[0]] + t';
    } else {
      ClassConcat([x], t, le, z);
      if le(z, x) && le(x, z) {
        ClassAboveEmpty(t, x, le, z);
      } else {
        assert Class([x], le, z) == [];
      }
    }
  }

  /** When `x` sorts strictly before the head of a sorted `t`, no element of `t` is in `x`'s class. */
  lemma ClassAboveEmpty<T(!new)>(t: seq<T>, x: T, le: (T, T) -> bool, z: T)
    requires TotalPreorder(le)
    requires SortedBy(t, le)
    requires t != [] && !le(t[0], x)
    requires le(z, x) && le(x, z)
    ensures Class(t, le, z) == []
  {
    var p := y => le(z, y) && le(y, z);
    forall j | 0 <= j < |t| ensures !p(t[j]) {
      assert j == 0 || le(t[0], t[j]);
      assert !le(t[j], x);
    }
    if Filter(t, p) != [] {
      assert Filter(t, p)[0] in Filter(t, p);
    }
  }

  /** Stable insertion sort. */
  function Sort<T(!new)>(s: seq<T>, le: (T, T) -> bool): (r: seq<T>)
    requires TotalPreorder(le)
    ensures SortedBy(r, le)
    ensures multiset(r) == multiset(s)
    ensures forall z :: Class(r, le, z) == Class(s, le, z)
    decreases |s|
  {
    if s == [] then []
    else
      var init, x := s[..|s| - 1], s[|s| - 1];
      assert s == init + [x];
      var t := Sort(init, le);
      InsertSorted(t, x, le);
      InsertPermutes(t, x, le);
      forall z ensures Class(Insert(t, x, le), le, z) == Class(s, le, z) {
        InsertClass(t, x, le, z);
        ClassConcat(init, [x], le, z);
      }
      Insert(t, x, le)
  }

  /** Python's `<=` on `str`: lexicographic by code point, a prefix first. */
  predicate StrLe(a: string, b: string) {
    if a == [] then true
    else if b == [] then false
    else if a[0] != b[0] then a[0] < b[0]
    else StrLe(a[1..], b[1..])
  }

  lemma {:induction false} StrLeTotal(a: string, b: string)
    ensures StrLe(a, b) || StrLe(b, a)
    decreases |a|
  {
    if a != [] && b != [] && a[0] == b[0] {
      StrLeTotal(a[1..], b[1..]);
    }
  }

  lemma {:induction false} StrLeTransitive(a: string, b: string, c: string)
    requires StrLe(a, b) && StrLe(b, c)
    ensures StrLe(a, c)
    decreases |a|
  {
    if a != [] && b != [] && c != [] && a[0] == b[0] && b[0] == c[0] {
      StrLeTransitive(a[1..], b[1..], c[1..]);
    }
  }

  lemma {:induction false} StrLeAntisymmetric(a: string, b: string)
    requires StrLe(a, b) && StrLe(b, a)
    ensures a == b
    decreases |a|
  {
    if a != [] && b != [] {
      StrLeAntisymmetric(a[1..], b[1..]);
      assert a == [a[0]] + a[1..] && b == [b[0]] + b[1..];
    }
  }

  /** Python's string order is a total order. */
  lemma StrLeTotalPreorder()
    ensures TotalPreorder(StrLe)
  {
    forall a, b ensures StrLe(a, b) || StrLe(b, a) {
      StrLeTotal(a, b);
    }
    forall a, b, c | StrLe(a, b) && StrLe(b, c) ensures StrLe(a, c) {
      StrLeTransitive(a, b, c);
    }
  }
}
