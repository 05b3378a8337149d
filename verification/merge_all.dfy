/** `main` of src/merge_all.py (the "Variant A" ablation): no user filtering, every watched
    agent item kept regardless of rating, one merged train, and negatives for the full dev
    and test tables, saved as the `Agent4Rec_All` ReChorus folder. */
module MergeAll {
  import opened Wrappers
  import opened Interactions
  import opened CfText
  import opened AgentLogs
  import opened HistoryIndex
  import opened NegativeSampler
  import FM = FinalMerge

  /** The inputs whose absence leaves a frame without the column a later line looks up:
      the merged train has no `user_id` when both the train file and the agent folder are
      missing (line 113), and a missing dev or test file has no `item_id` (lines 119-120).
      A missing train file alone is harmless, because the agent rows supply the columns. */
  predicate MissingColumns(src: FM.Sources) {
    (src.train.None? && src.agent.None?) || src.valid.None? || src.test.None?
  }

  /** A table read from `f`, or the empty table and history a missing file yields. */
  ghost predicate ReadOrEmpty(f: Option<seq<Line>>, rows: seq<Pair>, hist: History) {
    if f.None? then rows == [] && hist == map[] else FM.ReadFrom(f, rows, hist)
  }

  /** Steps 1 and 2 and the column look-ups of steps 3 and 4. A bad token raises while
      reading; a missing agent folder contributes no rows. */
  function Load(src: FM.Sources): (r: Result<FM.Tables, FM.Error>)
    ensures r.Failure? <==> FM.AnyBadFile(src) || MissingColumns(src)
    ensures r.Failure? ==> (r.error == FM.ValueError <==> FM.AnyBadFile(src))
    ensures r.Success? ==>
      && ReadOrEmpty(src.train, r.value.train, r.value.hTrain)
      && FM.ReadFrom(src.valid, r.value.valid, r.value.hValid)
      && FM.ReadFrom(src.test, r.value.test, r.value.hTest)
    ensures r.Success? ==>
      r.value.agent == if src.agent.None? then [] else ViewedAll(src.agent.value)
  {
    match (ReadCf(src.train), ReadCf(src.valid), ReadCf(src.test))
    case (Failure(_), _, _) => Failure(FM.ValueError)
    case (_, Failure(_), _) => Failure(FM.ValueError)
    case (_, _, Failure(_)) => Failure(FM.ValueError)
    case (Success(tr), Success(va), Success(te)) =>
      if (tr.Missing? && src.agent.None?) || va.Missing? || te.Missing? then Failure(FM.KeyError)
      else
        var agent := if src.agent.None? then [] else ViewedAll(src.agent.value);
        Success(FM.Tables(tr.Rows(), tr.Hist(), va.rows, va.hist, te.rows, te.hist, agent))
  }

  /** `df_train_variant_a`: the train rows then the agent rows, both with time 1, first row
      of each (user, item) pair kept. */
  function VariantTrain(t: FM.Tables): seq<Row> {
    TrainPool(WithTime(t.train, 1), WithTime(t.agent, 1))
  }

  /** The distinct `item_id`s of a table of train rows. */
  function RowItems(rows: seq<Row>): set<int> {
    set r | r in rows :: r.item
  }

  /** `all_items`: the items of the merged train, the dev table and the test table. */
  function Universe(t: FM.Tables): set<int> {
    RowItems(VariantTrain(t)) + Items(t.valid) + Items(t.test)
  }

  /** The items of a timed table are the items of the pairs it came from. */
  lemma RowItemsWithTime(ps: seq<Pair>, time: int)
    ensures RowItems(WithTime(ps, time)) == Items(ps)
  {
    WithTimePairs(ps, time);
    var rows := WithTime(ps, time);
    forall x | x in Items(ps) ensures x in RowItems(rows) {
      var p :| p in ps && p.item == x;
      assert p in PairSet(rows);
      var r :| r in rows && PairOf(r) == p;
    }
    forall x | x in RowItems(rows) ensures x in Items(ps) {
      var r :| r in rows && r.item == x;
      assert PairOf(r) in PairSet(rows);
    }
  }

  /** The items of a table of rows are the items of its pairs. */
  lemma RowItemsPairs(rows: seq<Row>)
    ensures RowItems(rows) == set p | p in PairSet(rows) :: p.item
  {
    forall x | x in RowItems(rows) ensures x in set p | p in PairSet(rows) :: p.item {
      var r :| r in rows && r.item == x;
      assert PairOf(r) in PairSet(rows);
    }
  }

  /** The universe is the union of the items of all four inputs, so an item only an agent
      watched is a possible negative for somebody else. */
  lemma UniverseIsUnion(t: FM.Tables)
    ensures Universe(t) == Items(t.train) + Items(t.agent) + Items(t.valid) + Items(t.test)
  {
    var a, b := WithTime(t.train, 1), WithTime(t.agent, 1);
    TrainPoolFirstWins(a, b);
    RowItemsPairs(VariantTrain(t));
    RowItemsPairs(a);
    RowItemsPairs(b);
    RowItemsWithTime(t.train, 1);
    RowItemsWithTime(t.agent, 1);
  }

  /** The Variant-A train holds every pair of the train and agent tables exactly once, all
      with time 1, and is no longer than both together. */
  lemma VariantTrainPairs(t: FM.Tables)
    ensures PairSet(VariantTrain(t)) == (set p | p in t.train) + (set p | p in t.agent)
    ensures forall i, j :: 0 <= i < j < |VariantTrain(t)| ==>
      PairOf(VariantTrain(t)[i]) != PairOf(VariantTrain(t)[j])
    ensures forall r :: r in VariantTrain(t) ==> r.time == 1
    ensures |VariantTrain(t)| <= |t.train| + |t.agent|
  {
    var a, b := WithTime(t.train, 1), WithTime(t.agent, 1);
    TrainPoolFirstWins(a, b);
    WithTimePairs(t.train, 1);
    WithTimePairs(t.agent, 1);
    forall r | r in VariantTrain(t) ensures r.time == 1 {
      if PairOf(r) in PairSet(a) {
        var j :| 0 <= j < |a| && a[j] == r && forall i :: 0 <= i < j ==> PairOf(a[i]) != PairOf(r);
        assert r in a;
      }
    }
  }

  /** Everything user `u` has in any of the four inputs. */
  function SeenAnywhere(t: FM.Tables, u: int): set<int> {
    UserItems(t.train, u) + UserItems(t.valid, u) + UserItems(t.test, u) + UserItems(t.agent, u)
  }

  /** Step 4 up to sampling: the universe, and `global_hist` from the three histories
      (`merge_h`) and the agent rows. */
  method Prepare(t: FM.Tables) returns (universe: set<int>, gh: History)
    requires FM.Indexed(t)
    ensures universe == Items(t.train) + Items(t.agent) + Items(t.valid) + Items(t.test)
    ensures gh.Keys == Users(t.train) + Users(t.valid) + Users(t.test) + Users(t.agent)
    ensures forall u :: ItemsOf(gh, u) == SeenAnywhere(t, u)
  {
    UniverseIsUnion(t);
    universe := RowItems(VariantTrain(t)) + Items(t.valid) + Items(t.test);
    gh := BuildGlobalHistory(t.hTrain, t.hValid, t.hTest, t.agent);
    GlobalIsSeen(t, gh);
  }

  /** The merged histories of the three tables plus the agent rows are each user's items
      over all four inputs. */
  lemma GlobalIsSeen(t: FM.Tables, gh: History)
    requires FM.Indexed(t)
    requires gh.Keys == t.hTrain.Keys + t.hValid.Keys + t.hTest.Keys + Users(t.agent)
    requires forall u :: (ItemsOf(gh, u) ==
      ItemsOf(t.hTrain, u) + ItemsOf(t.hValid, u) + ItemsOf(t.hTest, u) + UserItems(t.agent, u))
    ensures gh.Keys == Users(t.train) + Users(t.valid) + Users(t.test) + Users(t.agent)
    ensures forall u :: ItemsOf(gh, u) == SeenAnywhere(t, u)
  {
    forall u ensures ItemsOf(gh, u) == SeenAnywhere(t, u) {
      IndexItems(t.train, u);
      IndexItems(t.valid, u);
      IndexItems(t.test, u);
    }
  }

  /** A dev or test table built from `targets`: same rows in the same order, the given time,
      and for every row exactly `DefaultNumNeg` distinct universe items, none of which is the
      target or anything the user has in any input. */
  ghost predicate EvalTable(rows: seq<EvalRow>, targets: seq<Pair>, time: int, t: FM.Tables) {
    && |rows| == |targets|
    && forall j :: 0 <= j < |rows| ==>
      && rows[j].user == targets[j].user && rows[j].item == targets[j].item && rows[j].time == time
      && Negatives(rows[j].negs, SeenAnywhere(t, rows[j].user) + {rows[j].item}, Universe(t), DefaultNumNeg)
  }

  /** What a completed run saves, in terms of the tables it read. */
  ghost predicate SavedFrom(t: FM.Tables, d: Dataset) {
    && d.train == VariantTrain(t)
    && EvalTable(d.dev, t.valid, 2, t)
    && EvalTable(d.test, t.test, 3, t)
  }

  /** Row `q` has fewer than `DefaultNumNeg` items left once everything its user has is removed. */
  ghost predicate StarvedRaw(t: FM.Tables, q: Pair) {
    |Universe(t) - (SeenAnywhere(t, q.user) + {q.item})| < DefaultNumNeg
  }

  ghost predicate StarvedIn(t: FM.Tables, rows: seq<Pair>) {
    exists q :: q in rows && StarvedRaw(t, q)
  }

  /** A dev or test row that has fewer than `DefaultNumNeg` candidates left. */
  ghost predicate SomeStarved(t: FM.Tables) {
    StarvedIn(t, t.valid) || StarvedIn(t, t.test)
  }

  /** The facts `Prepare` establishes. */
  ghost predicate PreparedFrom(t: FM.Tables, universe: set<int>, gh: History) {
    universe == Universe(t) && forall u :: ItemsOf(gh, u) == SeenAnywhere(t, u)
  }

  /** Every dev or test row is already in its user's global seen-set, so the `seen.add(i)`
      of the sampler changes nothing, and starvation means the same against either view. */
  lemma RowsSeen(t: FM.Tables, universe: set<int>, gh: History, rows: seq<Pair>)
    requires PreparedFrom(t, universe, gh)
    requires rows == t.valid || rows == t.test
    ensures forall q :: q in rows ==> q.item in ItemsOf(gh, q.user)
    ensures forall j :: 0 <= j < |rows| ==>
      (Starved(gh, rows[j], universe, DefaultNumNeg) <==> StarvedRaw(t, rows[j]))
  {
    forall q | q in rows ensures q.item in ItemsOf(gh, q.user) {
      assert q.item in UserItems(rows, q.user);
    }
  }

  /** A table has a starved row exactly when one of its rows is starved against the global history. */
  lemma StarvedTable(t: FM.Tables, universe: set<int>, gh: History, rows: seq<Pair>)
    requires forall j :: 0 <= j < |rows| ==>
      (Starved(gh, rows[j], universe, DefaultNumNeg) <==> StarvedRaw(t, rows[j]))
    ensures StarvedIn(t, rows) <==>
      exists j :: 0 <= j < |rows| && Starved(gh, rows[j], universe, DefaultNumNeg)
  {
    if StarvedIn(t, rows) {
      var q :| q in rows && StarvedRaw(t, q);
      var j :| 0 <= j < |rows| && rows[j] == q;
      assert Starved(gh, rows[j], universe, DefaultNumNeg);
    }
    if exists j :: 0 <= j < |rows| && Starved(gh, rows[j], universe, DefaultNumNeg) {
      var j :| 0 <= j < |rows| && Starved(gh, rows[j], universe, DefaultNumNeg);
      assert rows[j] in rows;
    }
  }

  /** Sampled lists valid against the global history are leakage-free against every input. */
  lemma EvalFromSamples(t: FM.Tables, universe: set<int>, gh: History, rows: seq<Pair>,
                        time: int, negs: seq<seq<int>>)
    requires PreparedFrom(t, universe, gh)
    requires |negs| == |rows|
    requires forall j :: 0 <= j < |rows| ==> ValidFor(negs[j], gh, rows[j], universe, DefaultNumNeg)
    ensures EvalTable(FM.Attach(rows, time, negs), rows, time, t)
  {
  }

  /** Steps 4 and 5 on the loaded tables. */
  method SampleAndSave(t: FM.Tables, validDraws: FM.Oracle, testDraws: FM.Oracle) returns (r: FM.Run<Dataset>)
    requires FM.Indexed(t)
    requires FM.SamplesUniverse(validDraws, DefaultNumNeg) && FM.SamplesUniverse(testDraws, DefaultNumNeg)
    ensures r.Done? || r.OutOfDraws?
    ensures r.Done? ==> SavedFrom(t, r.value)
    ensures SomeStarved(t) ==> r.OutOfDraws?
    ensures (&& |Universe(t)| <= 2 * DefaultNumNeg && !SomeStarved(t)
             && FM.NeverEmpty(validDraws) && FM.NeverEmpty(testDraws))
            ==> r.Done?
  {
    var universe, gh := Prepare(t);
    UniverseIsUnion(t);
    RowsSeen(t, universe, gh, t.valid);
    RowsSeen(t, universe, gh, t.test);
    StarvedTable(t, universe, gh, t.valid);
    StarvedTable(t, universe, gh, t.test);
    var nv, gh1 := FM.SampleTable(t.valid, gh, universe, validDraws);
    if nv.None? {
      return FM.OutOfDraws;
    }
    var nt, gh2 := FM.SampleTable(t.test, gh1, universe, testDraws);
    if nt.None? {
      return FM.OutOfDraws;
    }
    EvalFromSamples(t, universe, gh, t.valid, 2, nv.value);
    EvalFromSamples(t, universe, gh, t.test, 3, nt.value);
    r := FM.Done(Dataset(VariantTrain(t), FM.Attach(t.valid, 2, nv.value), FM.Attach(t.test, 3, nt.value)));
  }

  /** `main`. `validDraws` and `testDraws` supply the `random.sample` results of the two
      `generate_negative_samples` calls. */
  method Pipeline(src: FM.Sources, validDraws: FM.Oracle, testDraws: FM.Oracle) returns (r: FM.Run<Dataset>)
    requires FM.SamplesUniverse(validDraws, DefaultNumNeg) && FM.SamplesUniverse(testDraws, DefaultNumNeg)
    ensures r.Raised? <==> FM.AnyBadFile(src) || MissingColumns(src)
    ensures r.Raised? ==> (r.error == FM.ValueError <==> FM.AnyBadFile(src))
    ensures r.Done? ==> Load(src).Success? && SavedFrom(Load(src).value, r.value)
    ensures Load(src).Success? && SomeStarved(Load(src).value) ==> r.OutOfDraws?
    ensures (&& Load(src).Success?
             && |Universe(Load(src).value)| <= 2 * DefaultNumNeg
             && !SomeStarved(Load(src).value)
             && FM.NeverEmpty(validDraws) && FM.NeverEmpty(testDraws))
            ==> r.Done?
  {
    var loaded := Load(src);
    if loaded.Failure? {
      return FM.Raised(loaded.error);
    }
    r := SampleAndSave(loaded.value, validDraws, testDraws);
  }
}
