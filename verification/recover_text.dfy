/** src/recover_text.py: rebuild the asin -> integer item-id mapping of the Grocery reviews and
    attach a title and a category to every used item. */
module RecoverText {
  import opened Wrappers
  import opened Seqs
  import opened Sorting

  /** One review after renaming and projecting to `user_id, item_id, time`. */
  datatype Review = Review(user: string, item: string, time: int)

  /** One record of the metadata file. A field is `None` when the frame has no such column,
      so that `row.get` falls back to its default. */
  datatype MetaRow = MetaRow(asin: string, title: Option<string>, categories: Option<seq<seq<string>>>)

  /** One row of `item_meta_enriched.csv`. */
  datatype Enriched = Enriched(id: int, title: string, category: string)

  const DefaultTitle := "Unknown Item"
  const DefaultCategory := "General Grocery"

  /** The sort key `['time', 'user_id']`. */
  predicate ReviewLe(a: Review, b: Review) {
    a.time < b.time || (a.time == b.time && StrLe(a.user, b.user))
  }

  lemma ReviewLeTotalPreorder()
    ensures TotalPreorder(ReviewLe)
  {
    forall a: Review, b: Review ensures ReviewLe(a, b) || ReviewLe(b, a) {
      StrLeTotal(a.user, b.user);
    }
    forall a: Review, b: Review, c: Review | ReviewLe(a, b) && ReviewLe(b, c) ensures ReviewLe(a, c) {
      if a.time == b.time == c.time {
        StrLeTransitive(a.user, b.user, c.user);
      }
    }
  }

  function SameReview(r: Review): Review {
    r
  }

  function SameItem(a: string): string {
    a
  }

  /** `out_df` after line 48: repeated reviews dropped (first kept), then stably sorted by
      time and user. */
  function CleanReviews(raw: seq<Review>): (r: seq<Review>)
    ensures SortedBy(r, ReviewLe)
    ensures Distinct(r)
    ensures forall x :: x in r <==> x in raw
    ensures forall z :: Class(r, ReviewLe, z) == Class(Dedup(raw, SameReview), ReviewLe, z)
  {
    ReviewLeTotalPreorder();
    DedupInjective(raw, SameReview);
    var d := Dedup(raw, SameReview);
    var r := Sort(d, ReviewLe);
    DistinctPermutation(d, r);
    r
  }

  function ItemOf(r: Review): string {
    r.item
  }

  /** The distinct items of the reviews. */
  function ReviewItems(rows: seq<Review>): set<string> {
    set r | r in rows :: r.item
  }

  /** The item column holds exactly the reviewed items. */
  lemma ItemColumn(rows: seq<Review>)
    ensures forall a :: a in MapSeq(rows, ItemOf) <==> a in ReviewItems(rows)
  {
    var items := MapSeq(rows, ItemOf);
    forall a | a in ReviewItems(rows) ensures a in items {
      var r :| r in rows && r.item == a;
      var k :| 0 <= k < |rows| && rows[k] == r;
      assert items[k] == a;
    }
    forall a | a in items ensures a in ReviewItems(rows) {
      var k :| 0 <= k < |items| && items[k] == a;
      assert rows[k] in rows;
    }
  }

  /** Two strings in strict Python order. */
  predicate StrLt(a: string, b: string) {
    StrLe(a, b) && a != b
  }

  /** `iids`: `sorted(out_df['item_id'].unique())`, strictly increasing and holding exactly
      the reviewed items. */
  function ItemIds(rows: seq<Review>): (iids: seq<string>)
    ensures forall a :: a in iids <==> a in ReviewItems(rows)
    ensures forall i, j :: 0 <= i < j < |iids| ==> StrLt(iids[i], iids[j])
  {
    StrLeTotalPreorder();
    var items := MapSeq(rows, ItemOf);
    ItemColumn(rows);
    DedupInjective(items, SameItem);
    var d := Dedup(items, SameItem);
    var iids := Sort(d, StrLe);
    DistinctPermutation(d, iids);
    iids
  }

  /** `item2id`: the `k`-th item of `iids` maps to `k + 1`. */
  function Item2Id(iids: seq<string>): (m: map<string, int>)
    requires Distinct(iids)
    ensures forall a :: a in m <==> a in iids
    ensures forall k :: 0 <= k < |iids| ==> iids[k] in m && m[iids[k]] == k + 1
  {
    map k | 0 <= k < |iids| :: iids[k] := k + 1
  }

  /** The ids 1..n. */
  function IdRange(n: nat): (r: set<int>)
    ensures forall v :: v in r <==> 1 <= v <= n
  {
    if n == 0 then {} else IdRange(n - 1) + {n}
  }

  /** A strictly increasing sequence has no repeats. */
  lemma StrictDistinct(iids: seq<string>)
    requires forall i, j :: 0 <= i < j < |iids| ==> StrLt(iids[i], iids[j])
    ensures Distinct(iids)
  {
    forall i, j | 0 <= i < j < |iids| ensures iids[i] != iids[j] {
      assert StrLt(iids[i], iids[j]);
    }
  }

  /** Numbering from 1 hits exactly the ids 1..n, each once. */
  lemma Item2IdOnto(iids: seq<string>)
    requires Distinct(iids)
    ensures Item2Id(iids).Values == IdRange(|iids|)
  {
    var m, n := Item2Id(iids), |iids|;
    forall v | v in m.Values ensures 1 <= v <= n {
      var a :| a in m && m[a] == v;
      var k :| 0 <= k < n && iids[k] == a;
    }
    forall v | 1 <= v <= n ensures v in m.Values {
      assert iids[v - 1] in m && m[iids[v - 1]] == v;
    }
    assert forall v :: v in m.Values <==> v in IdRange(n);
  }

  /** Distinct items get distinct ids. */
  lemma Item2IdInjective(iids: seq<string>)
    requires Distinct(iids)
    ensures forall a, b :: a in Item2Id(iids) && b in Item2Id(iids) && a != b ==>
      Item2Id(iids)[a] != Item2Id(iids)[b]
  {
    var m, n := Item2Id(iids), |iids|;
    forall a, b | a in m && b in m && a != b ensures m[a] != m[b] {
      var i :| 0 <= i < n && iids[i] == a;
      var j :| 0 <= j < n && iids[j] == b;
    }
  }

  /** Numbering a strictly increasing sequence from 1 keeps Python's string order. */
  lemma Item2IdMonotone(iids: seq<string>)
    requires forall i, j :: 0 <= i < j < |iids| ==> StrLt(iids[i], iids[j])
    requires Distinct(iids)
    ensures forall a, b :: a in Item2Id(iids) && b in Item2Id(iids) && StrLt(a, b) ==>
      Item2Id(iids)[a] < Item2Id(iids)[b]
  {
    var m, n := Item2Id(iids), |iids|;
    forall a, b | a in m && b in m && StrLt(a, b) ensures m[a] < m[b] {
      var i :| 0 <= i < n && iids[i] == a;
      var j :| 0 <= j < n && iids[j] == b;
      if j < i {
        assert StrLt(b, a);
        StrLeAntisymmetric(a, b);
      }
    }
  }

  /** `item2id` for the reviews. */
  function ItemMap(raw: seq<Review>): (m: map<string, int>)
    ensures m.Keys == ReviewItems(raw)
  {
    var rows := CleanReviews(raw);
    var iids := ItemIds(rows);
    StrictDistinct(iids);
    CleanItems(raw);
    assert forall a :: a in Item2Id(iids).Keys <==> a in ReviewItems(raw);
    Item2Id(iids)
  }

  /** Dropping repeated reviews and sorting loses no item. */
  lemma CleanItems(raw: seq<Review>)
    ensures ReviewItems(CleanReviews(raw)) == ReviewItems(raw)
  {
    var rows := CleanReviews(raw);
    forall a | a in ReviewItems(raw) ensures a in ReviewItems(rows) {
      var r :| r in raw && r.item == a;
      assert r in rows;
    }
  }

  /** There are as many ids as distinct reviewed items. */
  lemma ItemCount(raw: seq<Review>)
    ensures |ItemIds(CleanReviews(raw))| == |ReviewItems(raw)|
  {
    var iids := ItemIds(CleanReviews(raw));
    StrictDistinct(iids);
    DistinctCard(iids);
    CleanItems(raw);
    assert forall a :: a in (set a | a in iids) <==> a in ReviewItems(raw);
    assert (set a | a in iids) == ReviewItems(raw);
  }

  /** `item2id` is a bijection from the reviewed items onto 1..n, n being the number of
      distinct items, that preserves Python's string order. */
  lemma ItemMapBijective(raw: seq<Review>)
    ensures var m, n := ItemMap(raw), |ReviewItems(raw)|;
      && m.Keys == ReviewItems(raw)
      && m.Values == IdRange(n)
      && (forall a, b :: a in m && b in m && StrLt(a, b) ==> m[a] < m[b])
      && (forall a, b :: a in m && b in m && a != b ==> m[a] != m[b])
  {
    var iids := ItemIds(CleanReviews(raw));
    StrictDistinct(iids);
    Item2IdOnto(iids);
    Item2IdInjective(iids);
    Item2IdMonotone(iids);
    ItemCount(raw);
  }

  /** The category rule of lines 69-75: the third level of the first category path when it
      has one, else that path's last level, else the default. */
  function Category(categories: seq<seq<string>>): (c: string)
    ensures categories == [] || categories[0] == [] ==> c == DefaultCategory
    ensures categories != [] && categories[0] != [] ==> c in categories[0]
  {
    if |categories| > 0 && |categories[0]| > 2 then categories[0][2]
    else if |categories| > 0 && |categories[0]| > 0 then categories[0][|categories[0]| - 1]
    else DefaultCategory
  }

  /** On a non-empty first path the category is the level at depth `min(2, deepest)`. */
  lemma CategoryLevel(categories: seq<seq<string>>)
    requires categories != [] && categories[0] != []
    ensures Category(categories) == categories[0][Min(2, |categories[0]| - 1)]
  {
  }

  /** One row of `enriched_data` for a metadata record whose asin has an id. */
  function EnrichRow(m: MetaRow, ids: map<string, int>): Enriched
    requires m.asin in ids
  {
    Enriched(ids[m.asin], m.title.GetOr(DefaultTitle), Category(m.categories.GetOr([])))
  }

  /** The enriched rows of records that all have ids, in order. */
  function EnrichAll(kept: seq<MetaRow>, ids: map<string, int>): (rows: seq<Enriched>)
    requires forall m :: m in kept ==> m.asin in ids
    ensures |rows| == |kept|
  {
    seq(|kept|, j requires 0 <= j < |kept| => EnrichRow(kept[j], ids))
  }

  /** The enriched rows are exactly the records' enrichments. */
  lemma EnrichAllMembers(kept: seq<MetaRow>, ids: map<string, int>)
    requires forall m :: m in kept ==> m.asin in ids
    ensures forall e :: e in EnrichAll(kept, ids) <==> exists m :: m in kept && e == EnrichRow(m, ids)
  {
    var rows := EnrichAll(kept, ids);
    forall e | e in rows ensures exists m :: m in kept && e == EnrichRow(m, ids) {
      var j :| 0 <= j < |rows| && rows[j] == e;
      assert kept[j] in kept;
    }
    forall m | m in kept ensures EnrichRow(m, ids) in rows {
      var j :| 0 <= j < |kept| && kept[j] == m;
      assert rows[j] == EnrichRow(m, ids);
    }
  }

  predicate IdLe(a: Enriched, b: Enriched) {
    a.id <= b.id
  }

  lemma IdLeTotalPreorder()
    ensures TotalPreorder(IdLe)
  {
  }

  /** The line-60 filter `meta_df['asin'].isin(data_df['asin'])`. */
  function InReviews(raw: seq<Review>): MetaRow -> bool {
    (m: MetaRow) => m.asin in ReviewItems(raw)
  }

  /** The line-65 check `asin in item2id`. */
  function HasId(ids: map<string, int>): MetaRow -> bool {
    (m: MetaRow) => m.asin in ids
  }

  /** `e` is the enrichment of a metadata record of a reviewed item. */
  ghost predicate EnrichedFrom(e: Enriched, meta: seq<MetaRow>, raw: seq<Review>) {
    exists m :: m in meta && m.asin in ReviewItems(raw) && e == EnrichRow(m, ItemMap(raw))
  }

  /** `useful_meta_df`: the metadata records of reviewed items, in file order. */
  function Useful(meta: seq<MetaRow>, raw: seq<Review>): (useful: seq<MetaRow>)
    ensures forall m :: m in useful <==> m in meta && m.asin in ReviewItems(raw)
    ensures forall m :: m in useful ==> m.asin in ItemMap(raw)
  {
    Filter(meta, InReviews(raw))
  }

  /** The loop of lines 63-81: each useful record whose asin has an id, enriched, in order. */
  function EnrichLoop(useful: seq<MetaRow>, ids: map<string, int>): seq<Enriched> {
    EnrichAll(Filter(useful, HasId(ids)), ids)
  }

  /** `sort_values('item_id')`: some ordering of the rows by id. */
  function SortById(rows: seq<Enriched>): (out: seq<Enriched>)
    ensures SortedBy(out, IdLe)
    ensures multiset(out) == multiset(rows)
  {
    IdLeTotalPreorder();
    Sort(rows, IdLe)
  }

  /** What the final sort raises: `pd.DataFrame([])` has no `item_id` column. */
  datatype EnrichError = NoItemIdColumn

  /** Lines 60-87: the metadata records of reviewed items, in file order, each turned into an
      enriched row, then sorted by item id. When no record is left the frame has no
      `item_id` column and the sort raises. */
  function Enrich(meta: seq<MetaRow>, raw: seq<Review>): (r: Result<seq<Enriched>, EnrichError>)
    ensures r.Failure? <==> forall m :: m in meta ==> m.asin !in ReviewItems(raw)
    ensures r.Success? ==> SortedBy(r.value, IdLe)
    ensures r.Success? ==> multiset(r.value) == multiset(EnrichAll(Useful(meta, raw), ItemMap(raw)))
    ensures r.Success? ==> |r.value| == |Useful(meta, raw)|
    ensures r.Success? ==> forall e :: e in r.value <==> EnrichedFrom(e, meta, raw)
  {
    var rows := EnrichLoop(Useful(meta, raw), ItemMap(raw));
    EnrichFacts(meta, raw);
    if rows == [] then Failure(NoItemIdColumn) else Success(SortById(rows))
  }

  /** The line-65 check drops no useful record, so the loop enriches every one of them; the
      loop is empty exactly when no record is of a reviewed item; and the sorted rows are
      exactly the enrichments of the useful records. */
  lemma EnrichFacts(meta: seq<MetaRow>, raw: seq<Review>)
    ensures var useful, ids := Useful(meta, raw), ItemMap(raw);
      EnrichLoop(useful, ids) == EnrichAll(useful, ids)
    ensures var rows := EnrichLoop(Useful(meta, raw), ItemMap(raw));
      rows == [] <==> forall m :: m in meta ==> m.asin !in ReviewItems(raw)
    ensures |SortById(EnrichLoop(Useful(meta, raw), ItemMap(raw)))| == |Useful(meta, raw)|
    ensures forall e :: e in SortById(EnrichLoop(Useful(meta, raw), ItemMap(raw))) <==> EnrichedFrom(e, meta, raw)
  {
    var useful, ids := Useful(meta, raw), ItemMap(raw);
    FilterAll(useful, HasId(ids));
    var rows := EnrichAll(useful, ids);
    if useful != [] {
      assert useful[0] in useful;
    }
    EnrichAllMembers(useful, ids);
    assert |SortById(rows)| == |multiset(SortById(rows))| == |multiset(rows)| == |rows|;
    SortedMembers(rows, SortById(rows));
    UsefulRows(meta, raw, SortById(rows));
  }

  /** Sorting keeps the elements. */
  lemma SortedMembers(rows: seq<Enriched>, out: seq<Enriched>)
    requires multiset(out) == multiset(rows)
    ensures forall e :: e in out <==> e in rows
  {
    assert forall e :: e in out <==> e in multiset(rows);
  }

  /** The enrichments of the useful records are the enrichments of the metadata records of
      reviewed items. */
  lemma UsefulRows(meta: seq<MetaRow>, raw: seq<Review>, out: seq<Enriched>)
    requires forall e :: e in out <==> exists m :: m in Useful(meta, raw) && e == EnrichRow(m, ItemMap(raw))
    ensures forall e :: e in out <==> EnrichedFrom(e, meta, raw)
  {
    forall e ensures (exists m :: m in Useful(meta, raw) && e == EnrichRow(m, ItemMap(raw))) <==> EnrichedFrom(e, meta, raw)
    {
      if EnrichedFrom(e, meta, raw) {
        var m :| m in meta && m.asin in ReviewItems(raw) && e == EnrichRow(m, ItemMap(raw));
        assert m in Useful(meta, raw);
      }
    }
  }
}
