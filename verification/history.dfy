/** The seen-item index: `merge_hist` / `merge_h`, the loop that adds agent rows to
    `global_history`, and `filter_hist` (src/final_merge.py, src/merge_all.py). */
module HistoryIndex {
  import opened Seqs
  import opened Interactions

  /** Reference merge: every user of either history, with the union of their items. */
  function Union(g: History, h: History): History {
    map u | u in g.Keys + h.Keys :: ItemsOf(g, u) + ItemsOf(h, u)
  }

  /** A history with the merged keys and merged item sets is the merge. */
  lemma UnionExt(r: History, g: History, h: History)
    requires r.Keys == g.Keys + h.Keys
    requires forall u :: u in r ==> r[u] == ItemsOf(g, u) + ItemsOf(h, u)
    ensures r == Union(g, h)
  {
  }

  lemma UnionItems(g: History, h: History, u: int)
    ensures ItemsOf(Union(g, h), u) == ItemsOf(g, u) + ItemsOf(h, u)
  {
  }

  lemma UnionKeys(g: History, h: History)
    ensures Union(g, h).Keys == g.Keys + h.Keys
  {
  }

  /** Merging never removes a user or an item. */
  lemma UnionGrows(g: History, h: History)
    ensures forall u :: u in g ==> u in Union(g, h) && g[u] <= Union(g, h)[u]
    ensures forall u :: u in h ==> u in Union(g, h) && h[u] <= Union(g, h)[u]
  {
  }

  /** The order in which two sources are merged does not matter ... */
  lemma UnionCommutative(g: History, h: History)
    ensures Union(g, h) == Union(h, g)
  {
    assert forall u :: u in Union(g, h) ==> Union(g, h)[u] == Union(h, g)[u];
  }

  /** ... nor how successive merges are grouped. */
  lemma UnionAssociative(f: History, g: History, h: History)
    ensures Union(Union(f, g), h) == Union(f, Union(g, h))
  {
    var fg, gh := Union(f, g), Union(g, h);
    var l, r := Union(fg, h), Union(f, gh);
    UnionKeys(f, g);
    UnionKeys(g, h);
    UnionKeys(fg, h);
    UnionKeys(f, gh);
    forall u | u in l ensures l[u] == r[u] {
      AssociativeAt(f, g, h, u);
    }
    SameHistory(l, r);
  }

  /** Two histories with the same users and the same item sets are equal. */
  lemma SameHistory(a: History, b: History)
    requires a.Keys == b.Keys
    requires forall u :: u in a ==> a[u] == b[u]
    ensures a == b
  {
    assert forall u :: u in a <==> u in b;
    assert forall u :: u in a ==> a[u] == b[u];
  }

  lemma AssociativeAt(f: History, g: History, h: History, u: int)
    ensures ItemsOf(Union(Union(f, g), h), u) == ItemsOf(Union(f, Union(g, h)), u)
  {
    UnionItems(f, g, u);
    UnionItems(g, h, u);
    UnionItems(Union(f, g), h, u);
    UnionItems(f, Union(g, h), u);
  }

  /** `merge_hist(source_hist)`: for each user of the source, in any dict order, create an
      empty set if needed and `update` it with the source's items. */
  method MergeHist(g: History, h: History) returns (r: History)
    ensures r == Union(g, h)
  {
    r := g;
    var todo := h.Keys;
    while todo != {}
      invariant MergedExcept(r, g, h, todo)
      decreases |todo|
    {
      SetMember(todo);
      var u: int :| u in todo;
      MergeStep(r, g, h, todo, u);
      r, todo := r[u := ItemsOf(r, u) + h[u]], todo - {u};
    }
    MergedAll(r, g, h, todo);
  }

  /** The items of `h` for `u` once the merge loop has visited `u`. */
  function Reached(h: History, todo: set<int>, u: int): set<int> {
    if u in todo then {} else ItemsOf(h, u)
  }

  /** `r` is `g` merged with every entry of `h` except those of the users in `todo`. */
  ghost predicate MergedExcept(r: History, g: History, h: History, todo: set<int>) {
    && todo <= h.Keys
    && r.Keys == g.Keys + (h.Keys - todo)
    && forall u :: u in r ==> r[u] == ItemsOf(g, u) + Reached(h, todo, u)
  }

  lemma MergeStep(r: History, g: History, h: History, todo: set<int>, u: int)
    requires MergedExcept(r, g, h, todo) && u in todo
    ensures MergedExcept(r[u := ItemsOf(r, u) + h[u]], g, h, todo - {u})
  {
  }

  lemma MergedAll(r: History, g: History, h: History, todo: set<int>)
    requires MergedExcept(r, g, h, todo) && todo == {}
    ensures r == Union(g, h)
  {
    assert h.Keys - todo == h.Keys;
    forall u | u in r ensures r[u] == ItemsOf(g, u) + ItemsOf(h, u) {
      assert Reached(h, todo, u) == ItemsOf(h, u);
    }
    UnionExt(r, g, h);
  }

  /** The agent-row loop: `global_history[u].add(i)` for every row, creating the set on demand. */
  method AddRows(g: History, rows: seq<Pair>) returns (r: History)
    ensures r == Union(g, Index(rows))
  {
    r := g;
    var j := 0;
    AddedNone(g, rows);
    while j < |rows|
      invariant j <= |rows|
      invariant AddedPrefix(r, g, rows, j)
    {
      var p := rows[j];
      var cur := if p.user in r then r[p.user] else {};
      AddStep(r, g, rows, j);
      r := r[p.user := cur + {p.item}];
      j := j + 1;
    }
    AddedAll(r, g, rows, j);
  }

  /** `r` is `g` with the first `j` rows added. */
  ghost predicate AddedPrefix(r: History, g: History, rows: seq<Pair>, j: nat)
    requires j <= |rows|
  {
    && r.Keys == g.Keys + Users(rows[..j])
    && forall u :: u in r ==> r[u] == ItemsOf(g, u) + UserItems(rows[..j], u)
  }

  lemma AddedNone(g: History, rows: seq<Pair>)
    ensures AddedPrefix(g, g, rows, 0)
  {
    assert rows[..0] == [];
  }

  lemma AddStep(r: History, g: History, rows: seq<Pair>, j: nat)
    requires j < |rows| && AddedPrefix(r, g, rows, j)
    ensures AddedPrefix(r[rows[j].user := ItemsOf(r, rows[j].user) + {rows[j].item}], g, rows, j + 1)
  {
    var p := rows[j];
    var r' := r[p.user := ItemsOf(r, p.user) + {p.item}];
    UsersSnoc(rows, j);
    forall u | u in r' ensures r'[u] == ItemsOf(g, u) + UserItems(rows[..j + 1], u) {
      UserItemsSnoc(rows, j, u);
    }
  }

  lemma AddedAll(r: History, g: History, rows: seq<Pair>, j: nat)
    requires j == |rows| && AddedPrefix(r, g, rows, j)
    ensures r == Union(g, Index(rows))
  {
    assert rows[..j] == rows;
    var h := Index(rows);
    forall u | u in r ensures r[u] == ItemsOf(g, u) + ItemsOf(h, u) {
      IndexItems(rows, u);
    }
    UnionExt(r, g, h);
  }

  /** The full seen-set of both merge scripts: `merge_hist` over the train, valid and test
      histories, then every agent row. */
  method BuildGlobalHistory(hTrain: History, hValid: History, hTest: History, agent: seq<Pair>)
    returns (gh: History)
    ensures gh.Keys == hTrain.Keys + hValid.Keys + hTest.Keys + Users(agent)
    ensures forall u :: (ItemsOf(gh, u) ==
      ItemsOf(hTrain, u) + ItemsOf(hValid, u) + ItemsOf(hTest, u) + UserItems(agent, u))
  {
    var g0 := MergeHist(map[], hTrain);
    var g1 := MergeHist(g0, hValid);
    var g2 := MergeHist(g1, hTest);
    gh := AddRows(g2, agent);
    forall u ensures ItemsOf(gh, u) ==
      ItemsOf(hTrain, u) + ItemsOf(hValid, u) + ItemsOf(hTest, u) + UserItems(agent, u)
    {
      MergeChainItems(hTrain, hValid, hTest, agent, g0, g1, g2, gh, u);
    }
    MergeChainKeys(hTrain, hValid, hTest, agent, g0, g1, g2, gh);
  }

  lemma MergeChainItems(hTrain: History, hValid: History, hTest: History, agent: seq<Pair>,
                        g0: History, g1: History, g2: History, gh: History, u: int)
    requires g0 == Union(map[], hTrain) && g1 == Union(g0, hValid)
    requires g2 == Union(g1, hTest) && gh == Union(g2, Index(agent))
    ensures ItemsOf(gh, u) ==
      ItemsOf(hTrain, u) + ItemsOf(hValid, u) + ItemsOf(hTest, u) + UserItems(agent, u)
  {
    UnionItems(map[], hTrain, u);
    UnionItems(g0, hValid, u);
    UnionItems(g1, hTest, u);
    UnionItems(g2, Index(agent), u);
    IndexItems(agent, u);
  }

  lemma MergeChainKeys(hTrain: History, hValid: History, hTest: History, agent: seq<Pair>,
                       g0: History, g1: History, g2: History, gh: History)
    requires g0 == Union(map[], hTrain) && g1 == Union(g0, hValid)
    requires g2 == Union(g1, hTest) && gh == Union(g2, Index(agent))
    ensures gh.Keys == hTrain.Keys + hValid.Keys + hTest.Keys + Users(agent)
  {
    UnionKeys(map[], hTrain);
    UnionKeys(g0, hValid);
    UnionKeys(g1, hTest);
    UnionKeys(g2, Index(agent));
  }

  /** `filter_hist`: the entries whose user is a target, item sets untouched. */
  function FilterHist(h: History, targets: set<int>): (r: History)
    ensures r.Keys == h.Keys * targets
    ensures forall u :: u in r ==> r[u] == h[u]
  {
    map u | u in h && u in targets :: h[u]
  }

  /** Filtering the history agrees with filtering the table it indexes, which is why
      src/final_merge.py filters both. */
  lemma FilterHistIndex(ps: seq<Pair>, targets: set<int>)
    ensures FilterHist(Index(ps), targets) == Index(OfUsers(ps, targets))
  {
    var l, r := FilterHist(Index(ps), targets), Index(OfUsers(ps, targets));
    forall u ensures ItemsOf(l, u) == ItemsOf(r, u) {
      IndexItems(ps, u);
      IndexItems(OfUsers(ps, targets), u);
      OfUsersItems(ps, targets, u);
    }
    OfUsersItems(ps, targets, 0);
    assert l.Keys == r.Keys;
    forall u | u in l ensures l[u] == r[u] {
      assert ItemsOf(l, u) == ItemsOf(r, u);
    }
  }
}
