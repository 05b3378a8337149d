/** `generate_negative_samples` (src/final_merge.py and, identically, src/merge_all.py):
    rejection sampling of `num_neg` negative items per evaluation row. The batches
    `random.sample` returns are an oracle: a finite sequence of draws per row. When
    the draws run out before the row is complete, the Python loop would still be
    drawing; the model reports that as `None`. */
module NegativeSampler {
  import opened Wrappers
  import opened Seqs
  import opened Interactions

  /** The default `num_neg`. */
  const DefaultNumNeg: nat := 99

  /** A possible result of `random.sample(all_items_list, min(len(all_items_list), num_neg * 2))`:
      that many distinct items of the universe. */
  ghost predicate IsBatch(b: seq<int>, universe: set<int>, k: nat) {
    |b| == Min(|universe|, 2 * k) && Distinct(b) && forall x :: x in b ==> x in universe
  }

  /** Every batch of every row's draw stream is a possible `random.sample` result. */
  ghost predicate AreBatches(draws: seq<seq<int>>, universe: set<int>, k: nat) {
    forall b :: b in draws ==> IsBatch(b, universe, k)
  }

  /** A valid negative list for a row whose excluded set is `seen`: exactly `k` items of the
      universe, no repeats, none excluded. */
  ghost predicate Negatives(negs: seq<int>, seen: set<int>, universe: set<int>, k: nat) {
    && |negs| == k
    && Distinct(negs)
    && forall x :: x in negs ==> x !in seen && x in universe
  }

  /** The distinct candidates of a draw stream that are not in `seen`, in the order they
      were first drawn: the reference the sampler is compared with. */
  function Fresh(stream: seq<int>, seen: set<int>): seq<int> {
    if stream == [] then []
    else
      var f, x := Fresh(stream[..|stream| - 1], seen), stream[|stream| - 1];
      if x in seen || x in f then f else f + [x]
  }

  /** `Fresh` holds every unseen candidate of the stream, once. */
  lemma {:induction false} FreshMembers(stream: seq<int>, seen: set<int>)
    ensures Distinct(Fresh(stream, seen))
    ensures forall x :: x in Fresh(stream, seen) <==> x in stream && x !in seen
    decreases |stream|
  {
    if stream != [] {
      var init := stream[..|stream| - 1];
      FreshMembers(init, seen);
      assert stream == init + [stream[|stream| - 1]];
    }
  }

  /** One more candidate joins `Fresh` exactly when it is unseen and new: the test
      `cand not in seen and cand not in samples` of the sampler. */
  lemma FreshSnoc(a: seq<int>, x: int, seen: set<int>)
    ensures Fresh(a + [x], seen) ==
      if x in seen || x in Fresh(a, seen) then Fresh(a, seen) else Fresh(a, seen) + [x]
  {
    assert (a + [x])[..|a|] == a;
  }

  /** The unseen candidates of a stream come first in those of any extension of it. */
  lemma {:induction false} FreshPrefix(a: seq<int>, b: seq<int>, seen: set<int>)
    ensures |Fresh(a, seen)| <= |Fresh(a + b, seen)|
    ensures Fresh(a + b, seen)[..|Fresh(a, seen)|] == Fresh(a, seen)
    decreases |b|
  {
    if b == [] {
      assert a + b == a;
    } else {
      var b', x := b[..|b| - 1], b[|b| - 1];
      FreshPrefix(a, b', seen);
      assert a + b == (a + b') + [x];
      FreshSnoc(a + b', x, seen);
    }
  }

  lemma {:induction false} FlattenConcat<T>(a: seq<seq<T>>, b: seq<seq<T>>)
    ensures Flatten(a + b) == Flatten(a) + Flatten(b)
    decreases |b|
  {
    if b == [] {
      assert a + b == a;
    } else {
      var b' := b[..|b| - 1];
      assert (a + b)[..|a + b| - 1] == a + b';
      FlattenConcat(a, b');
    }
  }

  ghost predicate IsPrefix<T>(a: seq<T>, b: seq<T>) {
    |a| <= |b| && b[..|a|] == a
  }

  /** Consuming batch `d` up to position `j` keeps the consumed candidates a prefix of the whole stream. */
  lemma FlattenStep(batches: seq<seq<int>>, d: nat, j: nat)
    requires d < |batches| && j <= |batches[d]|
    ensures Flatten(batches[..d]) + batches[d] == Flatten(batches[..d + 1])
    ensures IsPrefix(Flatten(batches[..d]) + batches[d][..j], Flatten(batches))
  {
    var b := batches[d];
    var A, R := Flatten(batches[..d]), Flatten(batches[d + 1..]);
    assert batches[..d + 1][..d] == batches[..d];
    assert batches[..d + 1] + batches[d + 1..] == batches;
    FlattenConcat(batches[..d + 1], batches[d + 1..]);
    var all := Flatten(batches);
    assert all == (A + b) + R;
    var c := A + b[..j];
    forall i | 0 <= i < |c| ensures all[i] == c[i] {
    }
  }

  /** The inner `for cand in candidates` loop: append every unseen candidate not yet held,
      and break the moment `k` samples are held. */
  method ScanBatch(seen: set<int>, k: nat, ghost before: seq<int>, samples: seq<int>, b: seq<int>)
    returns (samples': seq<int>, j: nat)
    requires samples == Fresh(before, seen) && |samples| <= k
    ensures j <= |b|
    ensures samples' == Fresh(before + b[..j], seen)
    ensures |samples'| <= k
    ensures j < |b| ==> |samples'| == k
  {
    samples' := samples;
    j := 0;
    assert before + b[..0] == before;
    while j < |b| && |samples'| < k
      invariant 0 <= j <= |b|
      invariant samples' == Fresh(before + b[..j], seen)
      invariant |samples'| <= k
    {
      var cand := b[j];
      assert before + b[..j + 1] == (before + b[..j]) + [cand];
      FreshSnoc(before + b[..j], cand, seen);
      if cand !in seen && cand !in samples' {
        samples' := samples' + [cand];
      }
      j := j + 1;
    }
  }

  /** A complete row, read off the unseen candidates: the first `k` of them are a valid negative list. */
  lemma CompleteRow(seen: set<int>, universe: set<int>, k: nat, batches: seq<seq<int>>, consumed: seq<int>)
    requires AreBatches(batches, universe, k)
    requires IsPrefix(consumed, Flatten(batches))
    requires |Fresh(consumed, seen)| == k
    ensures |Fresh(Flatten(batches), seen)| >= k
    ensures Fresh(Flatten(batches), seen)[..k] == Fresh(consumed, seen)
    ensures Negatives(Fresh(consumed, seen), seen, universe, k)
  {
    var all := Flatten(batches);
    assert consumed + all[|consumed|..] == all;
    FreshPrefix(consumed, all[|consumed|..], seen);
    FreshMembers(consumed, seen);
    forall x | x in Fresh(consumed, seen) ensures x in universe {
      assert x in all;
      FlattenMember(batches, x);
      var t :| 0 <= t < |batches| && x in batches[t];
      assert batches[t] in batches;
    }
  }

  /** The sampler's loops, for one row whose excluded set is `seen`: draw a batch while
      fewer than `k` samples are held and scan it. */
  method SampleRow(seen: set<int>, universe: set<int>, k: nat, batches: seq<seq<int>>)
    returns (r: Option<seq<int>>)
    requires AreBatches(batches, universe, k)
    ensures r.Some? <==> |Fresh(Flatten(batches), seen)| >= k
    ensures r.Some? ==> r.value == Fresh(Flatten(batches), seen)[..k]
    ensures r.Some? ==> Negatives(r.value, seen, universe, k)
  {
    var samples: seq<int> := [];
    var d := 0;
    ghost var consumed: seq<int> := [];
    while |samples| < k && d < |batches|
      invariant 0 <= d <= |batches|
      invariant samples == Fresh(consumed, seen)
      invariant |samples| <= k
      invariant IsPrefix(consumed, Flatten(batches))
      invariant |samples| < k ==> consumed == Flatten(batches[..d])
      decreases |batches| - d
    {
      var j;
      FlattenStep(batches, d, |batches[d]|);
      samples, j := ScanBatch(seen, k, consumed, samples, batches[d]);
      FlattenStep(batches, d, j);
      assert batches[d][..|batches[d]|] == batches[d];
      consumed := consumed + batches[d][..j];
      d := d + 1;
    }
    if |samples| == k {
      CompleteRow(seen, universe, k, batches, consumed);
      r := Some(samples);
    } else {
      assert batches[..d] == batches;
      r := None;
    }
  }

  /** When fewer than `k` universe items are outside the excluded set, no sequence of draws
      ever completes the row: the Python `while` loop never exits. */
  lemma TooFewCandidatesNeverFinish(seen: set<int>, universe: set<int>, k: nat, batches: seq<seq<int>>)
    requires AreBatches(batches, universe, k)
    requires |universe - seen| < k
    ensures |Fresh(Flatten(batches), seen)| < k
  {
    var f := Fresh(Flatten(batches), seen);
    FreshMembers(Flatten(batches), seen);
    forall x | x in f ensures x in universe - seen {
      FlattenMember(batches, x);
      var t :| 0 <= t < |batches| && x in batches[t];
      assert batches[t] in batches;
    }
    DistinctWithin(f, universe - seen);
  }

  /** When the universe has at most `2k` items, every batch is the whole universe, so the
      first batch completes any row that has at least `k` eligible candidates. */
  lemma SmallUniverseFinishesInOneBatch(seen: set<int>, universe: set<int>, k: nat, batches: seq<seq<int>>)
    requires AreBatches(batches, universe, k)
    requires |universe| <= 2 * k
    requires |universe - seen| >= k
    requires batches != []
    ensures |Fresh(Flatten(batches), seen)| >= k
  {
    var b := batches[0];
    assert b in batches;
    DistinctCard(b);
    var bs := set x | x in b;
    assert IsBatch(b, universe, k);
    forall x | x in bs ensures x in universe {
      assert x in b;
    }
    assert bs == universe by {
      assert universe == bs + (universe - bs);
    }
    var f := Fresh(Flatten(batches), seen);
    FreshMembers(Flatten(batches), seen);
    forall x | x in universe - seen ensures x in (set y | y in f) {
      assert x in b;
      FlattenMember(batches, x);
    }
    DistinctCard(f);
    SubsetCard(universe - seen, set y | y in f);
  }

  /** The end-to-end sampling scenario: with K = 2, universe {10, 11, 20, 30, 40} and excluded
      set {10, 11, 30}, the only possible negative lists are [20, 40] and [40, 20]. */
  lemma OnlyEligiblePair(negs: seq<int>)
    requires Negatives(negs, {10, 11, 30}, {10, 11, 20, 30, 40}, 2)
    ensures negs == [20, 40] || negs == [40, 20]
  {
    assert negs[0] in negs && negs[1] in negs;
    assert negs[0] in {20, 40} && negs[1] in {20, 40} && negs[0] != negs[1];
    assert negs == [negs[0], negs[1]];
  }

  /** What `seen = global_history.get(u, set()); seen.add(i)` does to the shared history:
      `seen` aliases `global_history[u]`, so that entry gains `i`; for a user without an
      entry the new set is discarded and the history is unchanged. */
  function AfterSeenAdd(gh: History, u: int, i: int): (r: History)
    ensures r.Keys == gh.Keys
    ensures forall v :: v in r ==> r[v] == if v == u then gh[v] + {i} else gh[v]
  {
    if u in gh then gh[u := gh[u] + {i}] else gh
  }

  /** Adding an item a user's history already holds leaves the history as it was. */
  lemma SeenAddNoOp(gh: History, u: int, i: int)
    requires i in ItemsOf(gh, u)
    ensures AfterSeenAdd(gh, u, i) == gh
  {
    assert gh[u] + {i} == gh[u];
  }

  /** One row of `generate_negative_samples`: the aliasing update, then the sampler on
      the excluded set `global_history[u] | {i}`. */
  method SampleFor(gh: History, p: Pair, universe: set<int>, k: nat, batches: seq<seq<int>>)
    returns (negs: Option<seq<int>>, gh': History)
    requires AreBatches(batches, universe, k)
    ensures gh' == AfterSeenAdd(gh, p.user, p.item)
    ensures negs.Some? <==> |Fresh(Flatten(batches), ItemsOf(gh, p.user) + {p.item})| >= k
    ensures negs.Some? ==> ValidFor(negs.value, gh, p, universe, k)
  {
    var seen := if p.user in gh then gh[p.user] else {};
    seen := seen + {p.item};
    gh' := if p.user in gh then gh[p.user := seen] else gh;
    negs := SampleRow(seen, universe, k, batches);
  }

  /** The history after every row of a table has been through `seen.add(i)`. */
  function Absorb(gh: History, rows: seq<Pair>): History {
    map u | u in gh :: gh[u] + UserItems(rows, u)
  }

  lemma AbsorbStep(gh: History, rows: seq<Pair>, j: nat)
    requires j < |rows|
    ensures AfterSeenAdd(Absorb(gh, rows[..j]), rows[j].user, rows[j].item) == Absorb(gh, rows[..j + 1])
  {
    var p := rows[j];
    var l, r := AfterSeenAdd(Absorb(gh, rows[..j]), p.user, p.item), Absorb(gh, rows[..j + 1]);
    forall v | v in r ensures l[v] == r[v] {
      UserItemsSnoc(rows, j, v);
    }
    assert forall v :: v in l <==> v in r;
    assert forall v :: v in l ==> l[v] == r[v];
  }

  /** Absorbing a whole table, written as its full prefix. */
  lemma AbsorbAll(gh: History, rows: seq<Pair>, n: nat)
    requires n == |rows|
    ensures Absorb(gh, rows[..n]) == Absorb(gh, rows)
  {
    assert rows[..n] == rows;
  }

  /** When every row's item is already in its user's history, the aliasing updates change nothing. */
  lemma AbsorbNoOp(gh: History, rows: seq<Pair>)
    requires forall p :: p in rows ==> p.item in ItemsOf(gh, p.user)
    ensures Absorb(gh, rows) == gh
  {
    forall u | u in gh ensures Absorb(gh, rows)[u] == gh[u] {
      assert UserItems(rows, u) <= gh[u];
    }
  }

  /** The row's excluded set leaves fewer than `k` candidates. */
  ghost predicate Starved(gh: History, p: Pair, universe: set<int>, k: nat) {
    |universe - (ItemsOf(gh, p.user) + {p.item})| < k
  }

  /** A negative list that is valid for row `p` against history `gh`. */
  ghost predicate ValidFor(negs: seq<int>, gh: History, p: Pair, universe: set<int>, k: nat) {
    Negatives(negs, ItemsOf(gh, p.user) + {p.item}, universe, k)
  }

  /** Absorbing rows only ever adds items to a user's history. */
  lemma AbsorbGrows(gh: History, rows: seq<Pair>, v: int)
    ensures ItemsOf(gh, v) <= ItemsOf(Absorb(gh, rows), v)
  {
  }

  /** A row that is starved against the initial history is starved against any later one,
      so it can never be completed. */
  lemma StarvedLater(gh: History, rows: seq<Pair>, p: Pair, universe: set<int>, k: nat, batches: seq<seq<int>>)
    requires AreBatches(batches, universe, k)
    requires Starved(gh, p, universe, k)
    ensures |Fresh(Flatten(batches), ItemsOf(Absorb(gh, rows), p.user) + {p.item})| < k
  {
    var excl := ItemsOf(Absorb(gh, rows), p.user) + {p.item};
    var base := ItemsOf(gh, p.user) + {p.item};
    AbsorbGrows(gh, rows, p.user);
    SubsetCard(universe - excl, universe - base);
    TooFewCandidatesNeverFinish(excl, universe, k, batches);
  }

  /** A list valid against a later history is valid against the initial one. */
  lemma ValidEarlier(gh: History, rows: seq<Pair>, p: Pair, universe: set<int>, k: nat, negs: seq<int>)
    requires ValidFor(negs, Absorb(gh, rows), p, universe, k)
    ensures ValidFor(negs, gh, p, universe, k)
  {
    AbsorbGrows(gh, rows, p.user);
  }

  /** Absorbing a prefix of the rows adds no more than absorbing all of them. */
  lemma AbsorbPrefixWithin(gh: History, rows: seq<Pair>, j: nat, v: int)
    requires j <= |rows|
    ensures ItemsOf(Absorb(gh, rows[..j]), v) <= ItemsOf(Absorb(gh, rows), v)
  {
    assert forall p :: p in rows[..j] ==> p in rows;
  }

  /** Every row has at least `k` candidates left even against the history after the whole
      table, every row gets at least one batch, and every batch is the whole universe. */
  ghost predicate FullBatchesSuffice(gh: History, rows: seq<Pair>, universe: set<int>, k: nat,
                                     draws: seq<seq<seq<int>>>) {
    && |draws| == |rows|
    && |universe| <= 2 * k
    && forall j :: 0 <= j < |rows| ==> draws[j] != [] && !Starved(Absorb(gh, rows), rows[j], universe, k)
  }

  /** Under `FullBatchesSuffice`, the first batch completes row `j`. */
  lemma FinishesInFirstBatch(gh: History, rows: seq<Pair>, universe: set<int>, k: nat,
                             draws: seq<seq<seq<int>>>, j: nat)
    requires FullBatchesSuffice(gh, rows, universe, k, draws) && j < |rows|
    requires AreBatches(draws[j], universe, k)
    ensures |Fresh(Flatten(draws[j]), ItemsOf(Absorb(gh, rows[..j]), rows[j].user) + {rows[j].item})| >= k
  {
    var p := rows[j];
    var excl := ItemsOf(Absorb(gh, rows[..j]), p.user) + {p.item};
    var last := ItemsOf(Absorb(gh, rows), p.user) + {p.item};
    AbsorbPrefixWithin(gh, rows, j, p.user);
    SubsetCard(universe - last, universe - excl);
    SmallUniverseFinishesInOneBatch(excl, universe, k, draws[j]);
  }

  /** The first `|out|` rows are done: each has a valid list and none was starved. */
  ghost predicate Progress(out: seq<seq<int>>, gh: History, rows: seq<Pair>, universe: set<int>, k: nat) {
    && |out| <= |rows|
    && (forall t :: 0 <= t < |out| ==> ValidFor(out[t], gh, rows[t], universe, k))
    && (forall t :: 0 <= t < |out| ==> !Starved(gh, rows[t], universe, k))
  }

  lemma ProgressStep(out: seq<seq<int>>, gh: History, rows: seq<Pair>, universe: set<int>, k: nat, negs: seq<int>)
    requires Progress(out, gh, rows, universe, k) && |out| < |rows|
    requires ValidFor(negs, gh, rows[|out|], universe, k)
    requires !Starved(gh, rows[|out|], universe, k)
    ensures Progress(out + [negs], gh, rows, universe, k)
  {
  }

  /** `generate_negative_samples(df_target, global_history, all_items, num_neg)`: one negative
      list per row, in row order, each row seeing the history as earlier rows left it.
      `draws[j]` is the batch stream row `j` receives. */
  method GenerateNegativeSamples(rows: seq<Pair>, gh: History, universe: set<int>, k: nat,
                                 draws: seq<seq<seq<int>>>)
    returns (negs: Option<seq<seq<int>>>, gh': History)
    requires |draws| == |rows|
    requires forall j :: 0 <= j < |draws| ==> AreBatches(draws[j], universe, k)
    ensures negs.Some? ==> |negs.value| == |rows|
    ensures negs.Some? ==> forall j :: 0 <= j < |rows| ==> ValidFor(negs.value[j], gh, rows[j], universe, k)
    ensures negs.Some? ==> gh' == Absorb(gh, rows)
    ensures (exists j :: 0 <= j < |rows| && Starved(gh, rows[j], universe, k)) ==> negs.None?
    ensures FullBatchesSuffice(gh, rows, universe, k, draws) ==> negs.Some?
  {
    var out: seq<seq<int>> := [];
    gh' := gh;
    AbsorbNoOp(gh, rows[..0]);
    assert gh' == Absorb(gh, rows[..|out|]);
    while |out| < |rows|
      invariant Progress(out, gh, rows, universe, k)
      invariant gh' == Absorb(gh, rows[..|out|])
      decreases |rows| - |out|
    {
      var j := |out|;
      var p := rows[j];
      var row, next := SampleFor(gh', p, universe, k, draws[j]);
      if row.None? {
        assert !FullBatchesSuffice(gh, rows, universe, k, draws) by {
          if FullBatchesSuffice(gh, rows, universe, k, draws) {
            FinishesInFirstBatch(gh, rows, universe, k, draws, j);
          }
        }
        return None, next;
      }
      assert !Starved(gh, p, universe, k) by {
        if Starved(gh, p, universe, k) {
          StarvedLater(gh, rows[..j], p, universe, k, draws[j]);
        }
      }
      ValidEarlier(gh, rows[..j], p, universe, k, row.value);
      ProgressStep(out, gh, rows, universe, k, row.value);
      AbsorbStep(gh, rows, j);
      assert next == Absorb(gh, rows[..j + 1]);
      out, gh' := out + [row.value], next;
      assert |out| == j + 1;
    }
    AbsorbAll(gh, rows, |out|);
    negs := Some(out);
  }
}
