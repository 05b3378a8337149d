/** `main` of src/stage3_merge_for_rechorus.py: add the agent feedback rated 4 or more to the
    human train table of the Grocery subset, drop repeated (user, item) pairs keeping the
    first, and copy dev and test unchanged. */
module Stage3 {
  import opened Wrappers
  import opened Seqs
  import opened Interactions
  import AgentLogs

  /** One row of `agent_feedback.csv`. `rating` is `None` for an empty cell, which pandas reads
      as NaN and which `>= 4` rejects. */
  datatype Feedback = Feedback(user: int, item: int, time: int, rating: Option<int>)

  /** The row filter `df_agent['rating'] >= 4`. */
  predicate HighQuality(f: Feedback) {
    f.rating.Some? && f.rating.value >= AgentLogs.MinRating
  }

  /** `df_agent_hq`: the feedback rows rated 4 or more, in file order. */
  function Kept(fb: seq<Feedback>): (r: seq<Feedback>)
    ensures forall f :: f in r <==> f in fb && f.rating.Some? && f.rating.value >= 4
  {
    Filter(fb, HighQuality)
  }

  /** Keeping high-rated rows commutes with splitting the log, so their order is the log's. */
  lemma KeptOrder(a: seq<Feedback>, b: seq<Feedback>)
    ensures Kept(a + b) == Kept(a) + Kept(b)
  {
    FilterConcat(a, b, HighQuality);
  }

  /** `[['user_id', 'item_id', 'time']]` of a feedback row. */
  function Project(f: Feedback): Row {
    Row(f.user, f.item, f.time)
  }

  /** The concatenation of lines 29-32, before duplicates are dropped: the human rows, then
      one row per feedback row rated 4 or more, in log order. */
  function Candidates(train: seq<Row>, fb: seq<Feedback>): (r: seq<Row>)
    ensures |r| == |train| + |Kept(fb)|
    ensures r[..|train|] == train
    ensures forall j :: 0 <= j < |Kept(fb)| ==> r[|train| + j] == Project(Kept(fb)[j])
    ensures forall y :: y in r <==> y in train || exists f :: f in fb && HighQuality(f) && y == Project(f)
  {
    ProjectedMembers(fb);
    train + MapSeq(Kept(fb), Project)
  }

  /** The projected rows are exactly the projections of the high-rated feedback rows. */
  lemma ProjectedMembers(fb: seq<Feedback>)
    ensures forall y :: y in MapSeq(Kept(fb), Project) <==> exists f :: f in fb && HighQuality(f) && y == Project(f)
  {
    var tail := MapSeq(Kept(fb), Project);
    forall y | y in tail ensures exists f :: f in fb && HighQuality(f) && y == Project(f) {
      var j :| 0 <= j < |tail| && tail[j] == y;
      assert Kept(fb)[j] in Kept(fb);
    }
    forall f | f in fb && HighQuality(f) ensures Project(f) in tail {
      var j :| 0 <= j < |Kept(fb)| && Kept(fb)[j] == f;
      assert tail[j] == Project(f);
    }
  }

  /** The enhanced folder (lines 35-42): the candidates with repeated (user, item) pairs
      dropped, first kept, and the base dev and test tables. */
  function Enhance(base: Dataset, fb: seq<Feedback>): (r: Dataset)
    ensures r.dev == base.dev && r.test == base.test
  {
    Dataset(Dedup(Candidates(base.train, fb), PairOf), base.dev, base.test)
  }

  /** The pairs of the high-rated feedback. */
  function KeptPairs(fb: seq<Feedback>): set<Pair> {
    set f | f in fb && HighQuality(f) :: Pair(f.user, f.item)
  }

  /** The projected high-rated rows carry exactly the high-rated pairs. */
  lemma ProjectedPairs(fb: seq<Feedback>)
    ensures PairSet(MapSeq(Kept(fb), Project)) == KeptPairs(fb)
  {
    var b := MapSeq(Kept(fb), Project);
    forall p | p in KeptPairs(fb) ensures p in PairSet(b) {
      var f :| f in fb && HighQuality(f) && p == Pair(f.user, f.item);
      var j :| 0 <= j < |Kept(fb)| && Kept(fb)[j] == f;
      assert PairOf(b[j]) == p;
    }
    forall p | p in PairSet(b) ensures p in KeptPairs(fb) {
      var y :| y in b && PairOf(y) == p;
      var j :| 0 <= j < |b| && b[j] == y;
      assert Kept(fb)[j] in Kept(fb);
    }
  }

  /** The enhanced train holds exactly the pairs of the human train and of the high-rated
      feedback, each once; a pair the human train has keeps its first human row (and so its
      time); any other row is the projection of a high-rated feedback row; and it is never
      longer than the two inputs together. */
  lemma EnhancedTrain(base: Dataset, fb: seq<Feedback>)
    ensures var r := Enhance(base, fb).train;
      && PairSet(r) == PairSet(base.train) + KeptPairs(fb)
      && (forall i, j :: 0 <= i < j < |r| ==> PairOf(r[i]) != PairOf(r[j]))
      && |r| <= |base.train| + |Kept(fb)|
    ensures var r := Enhance(base, fb).train;
      forall y :: y in r && PairOf(y) in PairSet(base.train) ==> FirstRowOf(base.train, y)
    ensures var r := Enhance(base, fb).train;
      forall y :: y in r && PairOf(y) !in PairSet(base.train) ==>
        exists f :: f in fb && HighQuality(f) && y == Project(f)
  {
    var a, b := base.train, MapSeq(Kept(fb), Project);
    assert Enhance(base, fb).train == TrainPool(a, b);
    TrainPoolFirstWins(a, b);
    ProjectedPairs(fb);
    forall y | y in TrainPool(a, b) && PairOf(y) !in PairSet(a)
      ensures exists f :: f in fb && HighQuality(f) && y == Project(f)
    {
      var j :| 0 <= j < |b| && b[j] == y;
      assert Kept(fb)[j] in Kept(fb);
    }
  }
}
