/** The records the pipeline moves around: (user_id, item_id) pairs as read from the
    adjacency-list files and agent logs, ReChorus rows with a `time` column, and the
    per-user seen-item index. */
module Interactions {
  import Seqs

  /** One row of the two-column table `read_cf_txt` and the agent parsers build. */
  datatype Pair = Pair(user: int, item: int)

  /** One row of a ReChorus `train.csv`: `user_id, item_id, time`. */
  datatype Row = Row(user: int, item: int, time: int)

  /** One row of a ReChorus `dev.csv`/`test.csv`: the target plus its negative items. */
  datatype EvalRow = EvalRow(user: int, item: int, time: int, negs: seq<int>)

  /** The `train.csv`, `dev.csv` and `test.csv` of one ReChorus dataset folder. */
  datatype Dataset = Dataset(train: seq<Row>, dev: seq<EvalRow>, test: seq<EvalRow>)

  /** user_id -> set of item_ids that user has interacted with. */
  type History = map<int, set<int>>

  /** The drop-duplicates key `(user_id, item_id)` of a train row. */
  function PairOf(r: Row): Pair {
    Pair(r.user, r.item)
  }

  /** The distinct users of a table. */
  function Users(ps: seq<Pair>): set<int> {
    set p | p in ps :: p.user
  }

  /** The distinct items of a table (`df['item_id'].unique()`). */
  function Items(ps: seq<Pair>): set<int> {
    set p | p in ps :: p.item
  }

  /** The items a table records for user `u`. */
  function UserItems(ps: seq<Pair>, u: int): set<int> {
    set p | p in ps && p.user == u :: p.item
  }

  /** The history a table implies: each of its users mapped to that user's items. */
  function Index(ps: seq<Pair>): History {
    map u | u in Users(ps) :: UserItems(ps, u)
  }

  /** `history.get(u, set())`. */
  function ItemsOf(h: History, u: int): set<int> {
    if u in h then h[u] else {}
  }

  /** Adds the constant `time` column (`df['time'] = t`). */
  function WithTime(ps: seq<Pair>, t: int): seq<Row> {
    seq(|ps|, i requires 0 <= i < |ps| => Row(ps[i].user, ps[i].item, t))
  }

  /** The (user, item) pairs a table of train rows contains. */
  function PairSet(rows: seq<Row>): set<Pair> {
    set r | r in rows :: PairOf(r)
  }

  /** Adding a time column keeps exactly the pairs. */
  lemma WithTimePairs(ps: seq<Pair>, t: int)
    ensures PairSet(WithTime(ps, t)) == set p | p in ps
    ensures forall r :: r in WithTime(ps, t) ==> r.time == t
  {
    var rows := WithTime(ps, t);
    forall p | p in ps ensures p in PairSet(rows) {
      var i :| 0 <= i < |ps| && ps[i] == p;
      assert PairOf(rows[i]) == p;
    }
  }

  /** An index has exactly the table's users, each with exactly their items. */
  lemma IndexItems(ps: seq<Pair>, u: int)
    ensures ItemsOf(Index(ps), u) == UserItems(ps, u)
  {
    if u !in Users(ps) {
      assert UserItems(ps, u) == {};
    }
  }

  /** `df[df['user_id'].isin(users)]`: the rows of the given users, in order. */
  function OfUsers(ps: seq<Pair>, users: set<int>): seq<Pair> {
    Seqs.Filter(ps, (p: Pair) => p.user in users)
  }

  /** Restricting a table to some users restricts each user's items accordingly. */
  lemma OfUsersItems(ps: seq<Pair>, users: set<int>, u: int)
    ensures UserItems(OfUsers(ps, users), u) == if u in users then UserItems(ps, u) else {}
    ensures Users(OfUsers(ps, users)) == Users(ps) * users
    ensures Items(OfUsers(ps, users)) <= Items(ps)
  {
  }

  /** Appending one row adds its item to its user's items and nothing else. */
  lemma UserItemsSnoc(rows: seq<Pair>, j: nat, u: int)
    requires j < |rows|
    ensures UserItems(rows[..j + 1], u) ==
      UserItems(rows[..j], u) + (if u == rows[j].user then {rows[j].item} else {})
  {
    assert rows[..j + 1] == rows[..j] + [rows[j]];
  }

  lemma UsersSnoc(rows: seq<Pair>, j: nat)
    requires j < |rows|
    ensures Users(rows[..j + 1]) == Users(rows[..j]) + {rows[j].user}
  {
    assert rows[..j + 1] == rows[..j] + [rows[j]];
  }

  /** `pd.concat([first, second]).drop_duplicates(subset=['user_id', 'item_id'])`: the rows of
      `first` then `second`, keeping the first row of each (user, item) pair. */
  function TrainPool(first: seq<Row>, second: seq<Row>): seq<Row> {
    Seqs.Dedup(first + second, PairOf)
  }

  /** `y` is the first row of `rows` with its (user, item) pair. */
  ghost predicate FirstRowOf(rows: seq<Row>, y: Row) {
    exists j :: 0 <= j < |rows| && rows[j] == y && forall i :: 0 <= i < j ==> PairOf(rows[i]) != PairOf(y)
  }

  /** The pool holds every pair of either input exactly once, is no longer than both inputs
      together, and a pair that occurs in `first` is represented by its first row there. */
  lemma TrainPoolFirstWins(first: seq<Row>, second: seq<Row>)
    ensures var r := TrainPool(first, second);
      && PairSet(r) == PairSet(first) + PairSet(second)
      && (forall i, j :: 0 <= i < j < |r| ==> PairOf(r[i]) != PairOf(r[j]))
      && |r| <= |first| + |second|
    ensures var r := TrainPool(first, second);
      forall y :: y in r && PairOf(y) in PairSet(first) ==> FirstRowOf(first, y)
    ensures var r := TrainPool(first, second);
      forall y :: y in r && PairOf(y) !in PairSet(first) ==> y in second
  {
    var r := TrainPool(first, second);
    Seqs.DedupConcat(first, second, PairOf);
    assert PairSet(r) == Seqs.Keys(r, PairOf);
    assert PairSet(first) == Seqs.Keys(first, PairOf);
    assert PairSet(second) == Seqs.Keys(second, PairOf);
    forall y | y in r && PairOf(y) in PairSet(first) ensures FirstRowOf(first, y) {
      var j := Seqs.FirstIndex(first, PairOf, PairOf(y));
      assert first[j] == y;
    }
    forall y | y in r && PairOf(y) !in PairSet(first) ensures y in second {
      var j := Seqs.FirstIndex(second, PairOf, PairOf(y));
      assert second[j] == y;
    }
  }
}
