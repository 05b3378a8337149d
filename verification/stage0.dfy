/** `prepare_data` of src/stage0_prepare_1000_agents.py: pick up to 1000 users with at least
    `MIN_INTERACTIONS` train rows and restrict train, dev and test to them. */
module Stage0 {
  import opened Seqs
  import opened Interactions

  /** `MIN_INTERACTIONS`. */
  const MinInteractions: nat := 15

  /** How many users the simulation wants. */
  const TargetUsers: nat := 1000

  /** `train.groupby('user_id').size()[u]`: the number of train rows of user `u`. */
  function Count(rows: seq<Row>, u: int): nat {
    if rows == [] then 0
    else Count(rows[..|rows| - 1], u) + (if rows[|rows| - 1].user == u then 1 else 0)
  }

  /** The users with at least one train row. */
  function RowUsers(rows: seq<Row>): set<int> {
    set r | r in rows :: r.user
  }

  /** A user without rows has count zero. */
  lemma {:induction false} CountAbsent(rows: seq<Row>, u: int)
    requires u !in RowUsers(rows)
    ensures Count(rows, u) == 0
    decreases |rows|
  {
    if rows != [] {
      var init := rows[..|rows| - 1];
      assert RowUsers(init) <= RowUsers(rows) by {
        forall v | v in RowUsers(init) ensures v in RowUsers(rows) {
          var r :| r in init && r.user == v;
          assert r in rows;
        }
      }
      assert rows[|rows| - 1] in rows;
      CountAbsent(init, u);
    }
  }

  /** `active_user_pool`: exactly the users with at least `MinInteractions` train rows. */
  function ActivePool(rows: seq<Row>): (pool: set<int>)
    ensures forall u :: u in pool <==> Count(rows, u) >= MinInteractions
  {
    forall u | Count(rows, u) >= MinInteractions ensures u in RowUsers(rows) {
      if u !in RowUsers(rows) {
        CountAbsent(rows, u);
      }
    }
    set u | u in RowUsers(rows) && Count(rows, u) >= MinInteractions
  }

  /** A possible result of `random.sample(active_user_pool, 1000)`: 1000 distinct pool users. */
  ghost predicate IsSample(draw: seq<int>, pool: set<int>) {
    |draw| == TargetUsers && Distinct(draw) && forall u :: u in draw ==> u in pool
  }

  /** `target_users`: the whole pool when it is smaller than 1000, otherwise the sampled
      users. The draw is only looked at in the second case. */
  function Select(pool: set<int>, draw: seq<int>): (selected: set<int>)
    requires |pool| >= TargetUsers ==> IsSample(draw, pool)
    ensures |pool| < TargetUsers ==> selected == pool
    ensures |pool| >= TargetUsers ==> |selected| == TargetUsers && selected <= pool
    ensures selected <= pool
  {
    if |pool| < TargetUsers then pool
    else
      DistinctCard(draw);
      var s := set u | u in draw;
      assert forall u :: u in s ==> u in pool;
      s
  }

  /** `df[df['user_id'].isin(target_users)]` on a train table. */
  function TrainOf(rows: seq<Row>, selected: set<int>): seq<Row> {
    Filter(rows, (r: Row) => r.user in selected)
  }

  /** `df[df['user_id'].isin(target_users)]` on a dev or test table. */
  function EvalOf(rows: seq<EvalRow>, selected: set<int>): seq<EvalRow> {
    Filter(rows, (r: EvalRow) => r.user in selected)
  }

  /** Restricting a train table to some users keeps every row of theirs and no other row:
      a selected user keeps their count, any other user drops to zero. */
  lemma {:induction false} CountOf(rows: seq<Row>, selected: set<int>, u: int)
    ensures Count(TrainOf(rows, selected), u) == if u in selected then Count(rows, u) else 0
    decreases |rows|
  {
    if rows != [] {
      var init, x := rows[..|rows| - 1], rows[|rows| - 1];
      CountOf(init, selected, u);
      CountConcat(TrainOf(init, selected), if x.user in selected then [x] else [], u);
    }
  }

  /** Counting distributes over concatenation. */
  lemma {:induction false} CountConcat(a: seq<Row>, b: seq<Row>, u: int)
    ensures Count(a + b, u) == Count(a, u) + Count(b, u)
    decreases |b|
  {
    if b == [] {
      assert a + b == a;
    } else {
      assert (a + b)[..|a + b| - 1] == a + b[..|b| - 1];
      CountConcat(a, b[..|b| - 1], u);
    }
  }

  /** `prepare_data` on the three tables: the selected users, and the folder restricted to them. */
  function Prepare(d: Dataset, draw: seq<int>): (r: (set<int>, Dataset))
    requires |ActivePool(d.train)| >= TargetUsers ==> IsSample(draw, ActivePool(d.train))
    ensures r.0 <= ActivePool(d.train)
    ensures |ActivePool(d.train)| < TargetUsers ==> r.0 == ActivePool(d.train)
    ensures |ActivePool(d.train)| >= TargetUsers ==> |r.0| == TargetUsers
    ensures forall x :: x in r.1.train <==> x in d.train && x.user in r.0
    ensures forall x :: x in r.1.dev <==> x in d.dev && x.user in r.0
    ensures forall x :: x in r.1.test <==> x in d.test && x.user in r.0
  {
    var selected := Select(ActivePool(d.train), draw);
    (selected, Dataset(TrainOf(d.train, selected), EvalOf(d.dev, selected), EvalOf(d.test, selected)))
  }

  /** Every selected user has at least `MinInteractions` rows in the train subset, and every
      train row of a selected user is kept. */
  lemma SelectedStayActive(d: Dataset, draw: seq<int>, u: int)
    requires |ActivePool(d.train)| >= TargetUsers ==> IsSample(draw, ActivePool(d.train))
    requires u in Prepare(d, draw).0
    ensures Count(Prepare(d, draw).1.train, u) == Count(d.train, u)
    ensures Count(Prepare(d, draw).1.train, u) >= MinInteractions
  {
    CountOf(d.train, Prepare(d, draw).0, u);
  }

  /** The subsets keep the original relative order: restricting a concatenation restricts
      each part. */
  lemma SubsetOrder(a: seq<Row>, b: seq<Row>, selected: set<int>)
    ensures TrainOf(a + b, selected) == TrainOf(a, selected) + TrainOf(b, selected)
  {
    FilterConcat(a, b, (r: Row) => r.user in selected);
  }

  lemma EvalSubsetOrder(a: seq<EvalRow>, b: seq<EvalRow>, selected: set<int>)
    ensures EvalOf(a + b, selected) == EvalOf(a, selected) + EvalOf(b, selected)
  {
    FilterConcat(a, b, (r: EvalRow) => r.user in selected);
  }
}
