/** `main` of src/final_merge.py: keep only the simulated users, build the item universe and
    the seen-sets, sample negatives for every dev and test row, and assemble the baseline
    (`AgentRec_Original`) and enhanced (`AgentRec_Enhanced`) ReChorus folders. */
module FinalMerge {
  import opened Wrappers
  import opened Interactions
  import opened CfText
  import opened AgentLogs
  import opened HistoryIndex
  import opened NegativeSampler

  /** The inputs `main` reads: `train.txt`, `valid.txt`, `test.txt` and the agent-log folder,
      each `None` when the path does not exist. */
  datatype Sources = Sources(
    train: Option<seq<Line>>,
    valid: Option<seq<Line>>,
    test: Option<seq<Line>>,
    agent: Option<seq<AgentLog>>)

  /** The exceptions `main` can end with. */
  datatype Error =
    | ValueError  // `int()` on a token of a line with at least two tokens
    | KeyError    // a column looked up on the column-less frame of a missing file or folder

  /** How a run ends: it saves both folders, raises, or (in the model only) uses up the
      draws it was given while a sampling loop still needs more. */
  datatype Run<T> = Done(value: T) | Raised(error: Error) | OutOfDraws

  /** What steps 1 and 2 read: three tables with their histories, and the agent rows. */
  datatype Tables = Tables(
    train: seq<Pair>, hTrain: History,
    valid: seq<Pair>, hValid: History,
    test: seq<Pair>, hTest: History,
    agent: seq<Pair>)

  /** Both saved folders. */
  datatype Saved = Saved(baseline: Dataset, enhanced: Dataset)

  /** What `main` holds just before sampling. */
  datatype Prepared = Prepared(
    train: seq<Pair>, valid: seq<Pair>, test: seq<Pair>, agent: seq<Pair>,
    universe: set<int>, history: History)

  /** `random.sample` as an oracle: the batch stream row `j` of a table receives when the
      universe is `universe`. */
  type Oracle = (set<int>, nat) -> seq<seq<int>>

  /** Every stream the oracle hands out consists of possible `random.sample` results. */
  ghost predicate SamplesUniverse(o: Oracle, k: nat) {
    forall universe: set<int>, j: nat :: AreBatches(o(universe, j), universe, k)
  }

  /** The oracle never hands out an empty stream. */
  ghost predicate NeverEmpty(o: Oracle) {
    forall universe: set<int>, j: nat :: o(universe, j) != []
  }

  /** The streams for the rows of a table of `n` rows. */
  function DrawsFor(o: Oracle, universe: set<int>, n: nat): (d: seq<seq<seq<int>>>)
    ensures |d| == n
  {
    seq(n, j requires 0 <= j < n => o(universe, j))
  }

  ghost predicate BadFile(f: Option<seq<Line>>) {
    f.Some? && HasBadToken(f.value)
  }

  ghost predicate AnyBadFile(src: Sources) {
    BadFile(src.train) || BadFile(src.valid) || BadFile(src.test)
  }

  predicate AnyMissing(src: Sources) {
    src.train.None? || src.valid.None? || src.test.None? || src.agent.None?
  }

  /** A table read from an existing file: its rows are the file's rows in order, which are
      exactly the pairs the file mentions, and its history indexes them. */
  ghost predicate ReadFrom(f: Option<seq<Line>>, rows: seq<Pair>, hist: History) {
    && f.Some?
    && rows == FileRows(f.value)
    && (forall p :: p in rows <==> Mentions(f.value, p))
    && hist == Index(rows)
  }

  /** Steps 1 and 2 and the column look-ups of the filter step. A bad token raises while
      reading, before anything else; a missing file or folder yields a column-less frame,
      whose `['user_id']` raises `KeyError` at lines 148-156. */
  function Load(src: Sources): (r: Result<Tables, Error>)
    ensures r.Failure? <==> AnyBadFile(src) || AnyMissing(src)
    ensures r.Failure? ==> (r.error == ValueError <==> AnyBadFile(src))
    ensures r.Success? ==>
      && ReadFrom(src.train, r.value.train, r.value.hTrain)
      && ReadFrom(src.valid, r.value.valid, r.value.hValid)
      && ReadFrom(src.test, r.value.test, r.value.hTest)
    ensures r.Success? ==> src.agent.Some? && r.value.agent == ViewedHighRated(src.agent.value)
  {
    match (ReadCf(src.train), ReadCf(src.valid), ReadCf(src.test))
    case (Failure(_), _, _) => Failure(ValueError)
    case (_, Failure(_), _) => Failure(ValueError)
    case (_, _, Failure(_)) => Failure(ValueError)
    case (Success(tr), Success(va), Success(te)) =>
      if src.agent.None? || tr.Missing? || va.Missing? || te.Missing? then Failure(KeyError)
      else
        Success(Tables(tr.rows, tr.hist, va.rows, va.hist, te.rows, te.hist,
                       ViewedHighRated(src.agent.value)))
  }

  /** Each history indexes its table, as `read_cf_txt` guarantees. */
  ghost predicate Indexed(t: Tables) {
    t.hTrain == Index(t.train) && t.hValid == Index(t.valid) && t.hTest == Index(t.test)
  }

  /** `target_uid_set`: the users with at least one kept agent row. */
  function Targets(t: Tables): set<int> {
    Users(t.agent)
  }

  /** Everything user `u` touched in any of the four sources, before any filtering. */
  function SeenAnywhere(t: Tables, u: int): set<int> {
    UserItems(t.train, u) + UserItems(t.valid, u) + UserItems(t.test, u) + UserItems(t.agent, u)
  }

  /** `all_items`: the items of the filtered train, valid and test tables and of the agent rows. */
  function Universe(t: Tables): set<int> {
    var tg := Targets(t);
    Items(OfUsers(t.train, tg)) + Items(OfUsers(t.valid, tg)) + Items(OfUsers(t.test, tg)) + Items(t.agent)
  }

  /** For a target user, the filtered history of a table holds everything that user has in it. */
  lemma FilteredItems(ps: seq<Pair>, targets: set<int>, u: int)
    requires u in targets
    ensures ItemsOf(FilterHist(Index(ps), targets), u) == UserItems(ps, u)
  {
    FilterHistIndex(ps, targets);
    IndexItems(OfUsers(ps, targets), u);
    OfUsersItems(ps, targets, u);
  }

  /** Only target users enter the global history. */
  lemma FilteredKeys(ps: seq<Pair>, targets: set<int>)
    ensures FilterHist(Index(ps), targets).Keys <= targets
  {
  }

  /** Step 3 and the filter step: restrict the tables and histories to the targets, take the
      union of their items, and merge the histories and the agent rows. */
  method Prepare(t: Tables) returns (p: Prepared)
    requires Indexed(t)
    ensures p.train == OfUsers(t.train, Targets(t))
    ensures p.valid == OfUsers(t.valid, Targets(t))
    ensures p.test == OfUsers(t.test, Targets(t))
    ensures p.agent == t.agent
    ensures p.universe == Universe(t)
    ensures p.history.Keys == Targets(t)
    ensures forall u :: u in Targets(t) ==> ItemsOf(p.history, u) == SeenAnywhere(t, u)
  {
    var tg := Users(t.agent);
    var train, valid, test := OfUsers(t.train, tg), OfUsers(t.valid, tg), OfUsers(t.test, tg);
    var hTrain, hValid, hTest := FilterHist(t.hTrain, tg), FilterHist(t.hValid, tg), FilterHist(t.hTest, tg);
    var universe := Items(train) + Items(valid) + Items(test) + Items(t.agent);
    var gh := BuildGlobalHistory(hTrain, hValid, hTest, t.agent);
    FilteredKeys(t.train, tg);
    FilteredKeys(t.valid, tg);
    FilteredKeys(t.test, tg);
    forall u | u in tg ensures ItemsOf(gh, u) == SeenAnywhere(t, u) {
      FilteredItems(t.train, tg, u);
      FilteredItems(t.valid, tg, u);
      FilteredItems(t.test, tg, u);
    }
    p := Prepared(train, valid, test, t.agent, universe, gh);
  }

  /** Adds the time column and the negative lists to the dev or test targets. */
  function Attach(ps: seq<Pair>, time: int, negs: seq<seq<int>>): (r: seq<EvalRow>)
    requires |negs| == |ps|
    ensures |r| == |ps|
    ensures forall j :: 0 <= j < |ps| ==>
      r[j].user == ps[j].user && r[j].item == ps[j].item && r[j].time == time && r[j].negs == negs[j]
  {
    seq(|ps|, j requires 0 <= j < |ps| => EvalRow(ps[j].user, ps[j].item, time, negs[j]))
  }

  /** Steps 5 and 6: the baseline folder, and the enhanced one whose train is the train rows
      followed by the agent rows, first occurrence of each (user, item) kept. */
  function Assemble(p: Prepared, negValid: seq<seq<int>>, negTest: seq<seq<int>>): (s: Saved)
    requires |negValid| == |p.valid| && |negTest| == |p.test|
    ensures s.enhanced.dev == s.baseline.dev && s.enhanced.test == s.baseline.test
    ensures s.enhanced.train == TrainPool(s.baseline.train, WithTime(p.agent, 1))
  {
    var baseline := Dataset(WithTime(p.train, 1), Attach(p.valid, 2, negValid), Attach(p.test, 3, negTest));
    var enhanced := Dataset(TrainPool(baseline.train, WithTime(p.agent, 1)), baseline.dev, baseline.test);
    Saved(baseline, enhanced)
  }

  /** A dev or test table built from `targets`: same rows in the same order, the given time,
      and for every row exactly `DefaultNumNeg` distinct universe items, none of which is
      the target or anything the user touched in any source. */
  ghost predicate EvalTable(rows: seq<EvalRow>, targets: seq<Pair>, time: int, t: Tables) {
    && |rows| == |targets|
    && forall j :: 0 <= j < |rows| ==>
      && rows[j].user == targets[j].user && rows[j].item == targets[j].item && rows[j].time == time
      && Negatives(rows[j].negs, SeenAnywhere(t, rows[j].user) + {rows[j].item}, Universe(t), DefaultNumNeg)
  }

  /** What a completed run saves, in terms of the tables it read. */
  ghost predicate SavedFrom(t: Tables, s: Saved) {
    var tg := Targets(t);
    && s.baseline.train == WithTime(OfUsers(t.train, tg), 1)
    && EvalTable(s.baseline.dev, OfUsers(t.valid, tg), 2, t)
    && EvalTable(s.baseline.test, OfUsers(t.test, tg), 3, t)
    && s.enhanced.train == TrainPool(s.baseline.train, WithTime(t.agent, 1))
    && s.enhanced.dev == s.baseline.dev
    && s.enhanced.test == s.baseline.test
  }

  /** The enhanced train of a saved run holds every pair of the filtered train and of the agent
      rows, each exactly once, all with time 1. */
  lemma EnhancedTrain(t: Tables, s: Saved)
    requires SavedFrom(t, s)
    ensures PairSet(s.enhanced.train) == (set p | p in OfUsers(t.train, Targets(t))) + (set p | p in t.agent)
    ensures forall i, j :: 0 <= i < j < |s.enhanced.train| ==>
      PairOf(s.enhanced.train[i]) != PairOf(s.enhanced.train[j])
    ensures forall r :: r in s.enhanced.train ==> r.time == 1
    ensures |s.enhanced.train| <= |s.baseline.train| + |t.agent|
  {
    var a, b := s.baseline.train, WithTime(t.agent, 1);
    TrainPoolFirstWins(a, b);
    WithTimePairs(OfUsers(t.train, Targets(t)), 1);
    WithTimePairs(t.agent, 1);
    forall r | r in s.enhanced.train ensures r.time == 1 {
      if PairOf(r) in PairSet(a) {
        var j :| 0 <= j < |a| && a[j] == r && forall i :: 0 <= i < j ==> PairOf(a[i]) != PairOf(r);
        assert r in a;
      }
    }
  }

  /** Every dev and test target item belongs to the universe negatives are drawn from. */
  lemma UniverseHasTargets(t: Tables, q: Pair)
    requires q in OfUsers(t.valid, Targets(t)) || q in OfUsers(t.test, Targets(t))
    ensures q.item in Universe(t)
  {
  }

  /** Some row of `rows` has fewer than `DefaultNumNeg` candidates left. */
  ghost predicate StarvedIn(t: Tables, rows: seq<Pair>) {
    exists q :: q in rows && StarvedRaw(t, q)
  }

  /** Row `q` has fewer than `DefaultNumNeg` items left once everything its user has anywhere is removed. */
  ghost predicate StarvedRaw(t: Tables, q: Pair) {
    |Universe(t) - (SeenAnywhere(t, q.user) + {q.item})| < DefaultNumNeg
  }

  /** A dev or test row of a target user that has fewer than `DefaultNumNeg` candidates left. */
  ghost predicate SomeStarved(t: Tables) {
    StarvedIn(t, OfUsers(t.valid, Targets(t))) || StarvedIn(t, OfUsers(t.test, Targets(t)))
  }

  /** Step 4 for one table. The in-place `seen.add` leaves the history `gh'` as it was,
      because every target is already in its user's seen-set. */
  method SampleTable(rows: seq<Pair>, gh: History, universe: set<int>, o: Oracle)
    returns (negs: Option<seq<seq<int>>>, gh': History)
    requires SamplesUniverse(o, DefaultNumNeg)
    requires forall q :: q in rows ==> q.item in ItemsOf(gh, q.user)
    ensures negs.Some? ==> |negs.value| == |rows|
    ensures negs.Some? ==> forall j :: 0 <= j < |rows| ==>
      ValidFor(negs.value[j], gh, rows[j], universe, DefaultNumNeg)
    ensures (exists j :: 0 <= j < |rows| && Starved(gh, rows[j], universe, DefaultNumNeg)) ==> negs.None?
    ensures (&& |universe| <= 2 * DefaultNumNeg && NeverEmpty(o)
             && forall j :: 0 <= j < |rows| ==> !Starved(gh, rows[j], universe, DefaultNumNeg))
            ==> negs.Some?
    ensures negs.Some? ==> gh' == gh
  {
    var draws := DrawsFor(o, universe, |rows|);
    negs, gh' := GenerateNegativeSamples(rows, gh, universe, DefaultNumNeg, draws);
    AbsorbNoOp(gh, rows);
  }

  /** The facts `Prepare` establishes, as one predicate the rest of `main` relies on. */
  ghost predicate PreparedFrom(t: Tables, p: Prepared) {
    && p.train == OfUsers(t.train, Targets(t))
    && p.valid == OfUsers(t.valid, Targets(t))
    && p.test == OfUsers(t.test, Targets(t))
    && p.agent == t.agent
    && p.universe == Universe(t)
    && forall u :: u in Targets(t) ==> ItemsOf(p.history, u) == SeenAnywhere(t, u)
  }

  /** Every dev or test target is already in its user's global seen-set, so the
      `seen.add(i)` of the sampler changes nothing. */
  lemma TargetsSeen(t: Tables, p: Prepared, rows: seq<Pair>, all: seq<Pair>)
    requires PreparedFrom(t, p)
    requires rows == OfUsers(all, Targets(t)) && (all == t.valid || all == t.test)
    ensures forall q :: q in rows ==> q.user in Targets(t)
    ensures forall q :: q in rows ==> q.item in ItemsOf(p.history, q.user)
  {
    forall q | q in rows ensures q.user in Targets(t) && q.item in ItemsOf(p.history, q.user) {
      assert q in all && q.user in Targets(t);
    }
  }

  /** Sampled lists valid against the global history are leakage-free against every source. */
  lemma EvalFromSamples(t: Tables, p: Prepared, rows: seq<Pair>, all: seq<Pair>, time: int, negs: seq<seq<int>>)
    requires PreparedFrom(t, p)
    requires rows == OfUsers(all, Targets(t)) && (all == t.valid || all == t.test)
    requires |negs| == |rows|
    requires forall j :: 0 <= j < |rows| ==> ValidFor(negs[j], p.history, rows[j], p.universe, DefaultNumNeg)
    ensures EvalTable(Attach(rows, time, negs), rows, time, t)
  {
    TargetsSeen(t, p, rows, all);
    var e := Attach(rows, time, negs);
    forall j | 0 <= j < |rows|
      ensures Negatives(e[j].negs, SeenAnywhere(t, e[j].user) + {e[j].item}, Universe(t), DefaultNumNeg)
    {
      assert rows[j] in rows;
    }
  }

  /** For a target user, starvation against the global history is starvation against the raw tables. */
  lemma StarvedRow(t: Tables, p: Prepared, q: Pair)
    requires PreparedFrom(t, p) && q.user in Targets(t)
    ensures Starved(p.history, q, p.universe, DefaultNumNeg) <==> StarvedRaw(t, q)
  {
  }

  /** Every row of a filtered dev or test table is starved in both senses or in neither. */
  lemma StarvedRows(t: Tables, p: Prepared, rows: seq<Pair>, all: seq<Pair>)
    requires PreparedFrom(t, p)
    requires rows == OfUsers(all, Targets(t)) && (all == t.valid || all == t.test)
    ensures forall j :: 0 <= j < |rows| ==>
      (Starved(p.history, rows[j], p.universe, DefaultNumNeg) <==> StarvedRaw(t, rows[j]))
  {
    TargetsSeen(t, p, rows, all);
    forall j | 0 <= j < |rows|
      ensures Starved(p.history, rows[j], p.universe, DefaultNumNeg) <==> StarvedRaw(t, rows[j])
    {
      assert rows[j] in rows;
      StarvedRow(t, p, rows[j]);
    }
  }

  /** A table has a starved row exactly when one of its rows is starved against the global history. */
  lemma StarvedTable(t: Tables, p: Prepared, rows: seq<Pair>)
    requires forall j :: 0 <= j < |rows| ==>
      (Starved(p.history, rows[j], p.universe, DefaultNumNeg) <==> StarvedRaw(t, rows[j]))
    ensures StarvedIn(t, rows) <==>
      exists j :: 0 <= j < |rows| && Starved(p.history, rows[j], p.universe, DefaultNumNeg)
  {
    if StarvedIn(t, rows) {
      var q :| q in rows && StarvedRaw(t, q);
      var j :| 0 <= j < |rows| && rows[j] == q;
      assert Starved(p.history, rows[j], p.universe, DefaultNumNeg);
    }
    if exists j :: 0 <= j < |rows| && Starved(p.history, rows[j], p.universe, DefaultNumNeg) {
      var j :| 0 <= j < |rows| && Starved(p.history, rows[j], p.universe, DefaultNumNeg);
      assert rows[j] in rows;
    }
  }

  /** Steps 4 to 6 on the prepared tables. */
  method SampleAndSave(t: Tables, p: Prepared, validDraws: Oracle, testDraws: Oracle) returns (r: Run<Saved>)
    requires PreparedFrom(t, p)
    requires SamplesUniverse(validDraws, DefaultNumNeg) && SamplesUniverse(testDraws, DefaultNumNeg)
    ensures r.Done? || r.OutOfDraws?
    ensures r.Done? ==> SavedFrom(t, r.value)
    ensures SomeStarved(t) ==> r.OutOfDraws?
    ensures (&& |Universe(t)| <= 2 * DefaultNumNeg && !SomeStarved(t)
             && NeverEmpty(validDraws) && NeverEmpty(testDraws))
            ==> r.Done?
  {
    TargetsSeen(t, p, p.valid, t.valid);
    TargetsSeen(t, p, p.test, t.test);
    StarvedRows(t, p, p.valid, t.valid);
    StarvedRows(t, p, p.test, t.test);
    StarvedTable(t, p, p.valid);
    StarvedTable(t, p, p.test);
    var nv, gh1 := SampleTable(p.valid, p.history, p.universe, validDraws);
    if nv.None? {
      return OutOfDraws;
    }
    var nt, gh2 := SampleTable(p.test, gh1, p.universe, testDraws);
    if nt.None? {
      return OutOfDraws;
    }
    EvalFromSamples(t, p, p.valid, t.valid, 2, nv.value);
    EvalFromSamples(t, p, p.test, t.test, 3, nt.value);
    r := Done(Assemble(p, nv.value, nt.value));
  }

  /** `main`. `validDraws` and `testDraws` supply the `random.sample` results of the two
      `generate_negative_samples` calls. */
  method Pipeline(src: Sources, validDraws: Oracle, testDraws: Oracle) returns (r: Run<Saved>)
    requires SamplesUniverse(validDraws, DefaultNumNeg) && SamplesUniverse(testDraws, DefaultNumNeg)
    ensures r.Raised? <==> AnyBadFile(src) || AnyMissing(src)
    ensures r.Raised? ==> (r.error == ValueError <==> AnyBadFile(src))
    ensures r.Done? ==> Load(src).Success? && SavedFrom(Load(src).value, r.value)
    ensures Load(src).Success? && SomeStarved(Load(src).value) ==> r.OutOfDraws?
    ensures (&& Load(src).Success?
             && |Universe(Load(src).value)| <= 2 * DefaultNumNeg
             && !SomeStarved(Load(src).value)
             && NeverEmpty(validDraws) && NeverEmpty(testDraws))
            ==> r.Done?
  {
    var loaded := Load(src);
    if loaded.Failure? {
      return Raised(loaded.error);
    }
    var t := loaded.value;
    var p := Prepare(t);
    r := SampleAndSave(t, p, validDraws, testDraws);
  }
}
