/** The agent-log parsers: `parse_agent_viewed_data` (src/final_merge.py, keeps
    watched items rated at least 4) and `parse_agent_data_all` (src/merge_all.py,
    keeps every watched item). A log is one agent's pickled dict of pages; the
    directory listing, unpickling and the filename-to-user parse are left outside. */
module AgentLogs {
  import opened Wrappers
  import opened Seqs
  import opened Interactions

  /** One page of an agent log: `content.get('watch_id', [])` and `content.get('rating', [])`. */
  datatype Page = Page(watchIds: seq<int>, ratings: seq<int>)

  /** One `<user_id>.pkl` file: its user and its pages in dict iteration order. */
  datatype AgentLog = AgentLog(user: int, pages: seq<Page>)

  /** One watched item, with the rating at the same index when the rating list reaches it. */
  datatype View = View(user: int, item: int, rating: Option<int>)

  /** The rating threshold of src/final_merge.py:72. */
  const MinRating := 4

  /** The rating recorded for the `i`-th watched item of a page, if any. */
  function RatingAt(pg: Page, i: nat): Option<int> {
    if i < |pg.ratings| then Some(pg.ratings[i]) else None
  }

  /** The `i`-th watched item of a page as a view. */
  function ViewAt(u: int, pg: Page, i: nat): View
    requires i < |pg.watchIds|
  {
    View(u, pg.watchIds[i], RatingAt(pg, i))
  }

  function PageViews(u: int, pg: Page): seq<View> {
    seq(|pg.watchIds|, i requires 0 <= i < |pg.watchIds| => ViewAt(u, pg, i))
  }

  function LogViews(u: int, pages: seq<Page>): seq<View> {
    if pages == [] then [] else LogViews(u, pages[..|pages| - 1]) + PageViews(u, pages[|pages| - 1])
  }

  /** Every watched item of every log, in file, page and index order. */
  function Views(logs: seq<AgentLog>): seq<View> {
    if logs == [] then []
    else
      var log := logs[|logs| - 1];
      Views(logs[..|logs| - 1]) + LogViews(log.user, log.pages)
  }

  /** Every watch list of every log, concatenated in the same order. */
  function AllWatched(logs: seq<AgentLog>): seq<int> {
    if logs == [] then [] else AllWatched(logs[..|logs| - 1]) + LogWatched(logs[|logs| - 1].pages)
  }

  function LogWatched(pages: seq<Page>): seq<int> {
    if pages == [] then [] else LogWatched(pages[..|pages| - 1]) + pages[|pages| - 1].watchIds
  }

  /** The test of src/final_merge.py:72: a rating exists at the same index and is at least 4. */
  predicate HighRated(v: View) {
    v.rating.Some? && v.rating.value >= MinRating
  }

  function ToPair(v: View): Pair {
    Pair(v.user, v.item)
  }

  /** `parse_agent_viewed_data`: the (user, item) rows of highly rated watched items. */
  function ViewedHighRated(logs: seq<AgentLog>): seq<Pair> {
    MapSeq(Filter(Views(logs), HighRated), ToPair)
  }

  /** `parse_agent_data_all`: one (user, item) row per watched item, ratings ignored. */
  function ViewedAll(logs: seq<AgentLog>): seq<Pair> {
    MapSeq(Views(logs), ToPair)
  }

  /** Log `a`, page `g` has a watched item at index `i`. */
  ghost predicate WatchedAt(logs: seq<AgentLog>, a: int, g: int, i: int) {
    && 0 <= a < |logs|
    && 0 <= g < |logs[a].pages|
    && 0 <= i < |logs[a].pages[g].watchIds|
  }

  /** ... and that item has a rating at the same index that is at least 4. */
  ghost predicate RatedHighAt(logs: seq<AgentLog>, a: int, g: int, i: int) {
    && WatchedAt(logs, a, g, i)
    && i < |logs[a].pages[g].ratings|
    && logs[a].pages[g].ratings[i] >= MinRating
  }

  lemma LogViewsMember(u: int, pages: seq<Page>, v: View)
    ensures v in LogViews(u, pages) <==>
      exists g, i :: 0 <= g < |pages| && 0 <= i < |pages[g].watchIds| && v == ViewAt(u, pages[g], i)
    decreases |pages|
  {
    if pages != [] {
      var init, pg := pages[..|pages| - 1], pages[|pages| - 1];
      LogViewsMember(u, init, v);
      if v in LogViews(u, pages) && v !in LogViews(u, init) {
        var i :| 0 <= i < |pg.watchIds| && PageViews(u, pg)[i] == v;
        assert pages[|pages| - 1] == pg;
      }
      if exists g, i :: 0 <= g < |pages| && 0 <= i < |pages[g].watchIds| && v == ViewAt(u, pages[g], i) {
        var g, i :| 0 <= g < |pages| && 0 <= i < |pages[g].watchIds| && v == ViewAt(u, pages[g], i);
        if g < |init| {
          assert init[g] == pages[g];
        } else {
          assert PageViews(u, pg)[i] == v;
        }
      }
    }
  }

  lemma ViewsMember(logs: seq<AgentLog>, v: View)
    ensures v in Views(logs) <==>
      exists a, g, i :: WatchedAt(logs, a, g, i) && v == ViewAt(logs[a].user, logs[a].pages[g], i)
    decreases |logs|
  {
    if logs != [] {
      var init := logs[..|logs| - 1];
      ViewsMember(init, v);
      if v in Views(logs) {
        ViewsMemberOut(logs, v);
      }
      if exists a, g, i :: WatchedAt(logs, a, g, i) && v == ViewAt(logs[a].user, logs[a].pages[g], i) {
        var a, g, i :| WatchedAt(logs, a, g, i) && v == ViewAt(logs[a].user, logs[a].pages[g], i);
        ViewsMemberIn(logs, v, a, g, i);
      }
    }
  }

  lemma ViewsMemberOut(logs: seq<AgentLog>, v: View)
    requires logs != []
    requires var init := logs[..|logs| - 1];
      v in Views(init) <==>
        exists a, g, i :: WatchedAt(init, a, g, i) && v == ViewAt(init[a].user, init[a].pages[g], i)
    requires v in Views(logs)
    ensures exists a, g, i :: WatchedAt(logs, a, g, i) && v == ViewAt(logs[a].user, logs[a].pages[g], i)
  {
    var init, log := logs[..|logs| - 1], logs[|logs| - 1];
    if v in Views(init) {
      var a, g, i :| WatchedAt(init, a, g, i) && v == ViewAt(init[a].user, init[a].pages[g], i);
      assert init[a] == logs[a];
      assert WatchedAt(logs, a, g, i);
    } else {
      LogViewsMember(log.user, log.pages, v);
      var g, i :| 0 <= g < |log.pages| && 0 <= i < |log.pages[g].watchIds|
        && v == ViewAt(log.user, log.pages[g], i);
      assert WatchedAt(logs, |init|, g, i);
    }
  }

  lemma ViewsMemberIn(logs: seq<AgentLog>, v: View, a: int, g: int, i: int)
    requires logs != []
    requires var init := logs[..|logs| - 1];
      v in Views(init) <==>
        exists a, g, i :: WatchedAt(init, a, g, i) && v == ViewAt(init[a].user, init[a].pages[g], i)
    requires WatchedAt(logs, a, g, i) && v == ViewAt(logs[a].user, logs[a].pages[g], i)
    ensures v in Views(logs)
  {
    var init, log := logs[..|logs| - 1], logs[|logs| - 1];
    if a < |init| {
      assert init[a] == logs[a];
      assert WatchedAt(init, a, g, i);
    } else {
      LogViewsMember(log.user, log.pages, v);
    }
  }

  /** The rating filter of `parse_agent_viewed_data`: a row (u, x) is emitted exactly when some
      log of user u has x at some index of some page's `watch_id` list and the page's `rating`
      list reaches that index with a value of at least 4. A watched item without a rating is dropped. */
  lemma ViewedHighRatedMember(logs: seq<AgentLog>, p: Pair)
    ensures p in ViewedHighRated(logs) <==>
      exists a, g, i :: RatedHighAt(logs, a, g, i)
        && logs[a].user == p.user && logs[a].pages[g].watchIds[i] == p.item
  {
    var kept := Filter(Views(logs), HighRated);
    if p in ViewedHighRated(logs) {
      var j :| 0 <= j < |kept| && ToPair(kept[j]) == p;
      var v := kept[j];
      assert v in kept;
      ViewsMember(logs, v);
      var a, g, i :| WatchedAt(logs, a, g, i) && v == ViewAt(logs[a].user, logs[a].pages[g], i);
      assert RatedHighAt(logs, a, g, i);
    }
    if exists a, g, i :: RatedHighAt(logs, a, g, i)
        && logs[a].user == p.user && logs[a].pages[g].watchIds[i] == p.item {
      var a, g, i :| RatedHighAt(logs, a, g, i)
        && logs[a].user == p.user && logs[a].pages[g].watchIds[i] == p.item;
      var v := ViewAt(logs[a].user, logs[a].pages[g], i);
      ViewsMember(logs, v);
      assert v in kept;
      var j :| 0 <= j < |kept| && kept[j] == v;
      assert ViewedHighRated(logs)[j] == p;
    }
  }

  /** `parse_agent_data_all`: a row (u, x) is emitted exactly when some log of user u watched x,
      whatever its rating. */
  lemma ViewedAllMember(logs: seq<AgentLog>, p: Pair)
    ensures p in ViewedAll(logs) <==>
      exists a, g, i :: WatchedAt(logs, a, g, i)
        && logs[a].user == p.user && logs[a].pages[g].watchIds[i] == p.item
  {
    var vs := Views(logs);
    if p in ViewedAll(logs) {
      var j :| 0 <= j < |vs| && ToPair(vs[j]) == p;
      assert vs[j] in vs;
      ViewsMember(logs, vs[j]);
    }
    if exists a, g, i :: WatchedAt(logs, a, g, i)
        && logs[a].user == p.user && logs[a].pages[g].watchIds[i] == p.item {
      var a, g, i :| WatchedAt(logs, a, g, i)
        && logs[a].user == p.user && logs[a].pages[g].watchIds[i] == p.item;
      var v := ViewAt(logs[a].user, logs[a].pages[g], i);
      ViewsMember(logs, v);
      var j :| 0 <= j < |vs| && vs[j] == v;
      assert ViewedAll(logs)[j] == p;
    }
  }

  lemma {:induction false} LogViewsItems(u: int, pages: seq<Page>)
    ensures |LogViews(u, pages)| == |LogWatched(pages)|
    ensures forall j :: 0 <= j < |LogWatched(pages)| ==>
      LogViews(u, pages)[j] == View(u, LogWatched(pages)[j], LogViews(u, pages)[j].rating)
    decreases |pages|
  {
    if pages != [] {
      LogViewsItems(u, pages[..|pages| - 1]);
    }
  }

  /** `parse_agent_data_all` emits one row per watched id: its item column is every
      `watch_id` list concatenated, in order and with repetitions. */
  lemma {:induction false} ViewedAllItems(logs: seq<AgentLog>)
    ensures |ViewedAll(logs)| == |AllWatched(logs)|
    ensures forall j :: 0 <= j < |AllWatched(logs)| ==> ViewedAll(logs)[j].item == AllWatched(logs)[j]
    decreases |logs|
  {
    if logs != [] {
      var init, log := logs[..|logs| - 1], logs[|logs| - 1];
      ViewedAllItems(init);
      LogViewsItems(log.user, log.pages);
      var vs := Views(logs);
      forall j | 0 <= j < |AllWatched(logs)| ensures vs[j].item == AllWatched(logs)[j] {
        if j < |Views(init)| {
          assert vs[j] == Views(init)[j];
          assert ViewedAll(init)[j].item == AllWatched(init)[j];
        }
      }
    }
  }

  /** The filtered table never holds a pair the unfiltered one lacks, and is no longer. */
  lemma HighRatedWithinAll(logs: seq<AgentLog>)
    ensures forall p :: p in ViewedHighRated(logs) ==> p in ViewedAll(logs)
    ensures |ViewedHighRated(logs)| <= |ViewedAll(logs)|
  {
    forall p | p in ViewedHighRated(logs) ensures p in ViewedAll(logs) {
      ViewedHighRatedMember(logs, p);
      ViewedAllMember(logs, p);
    }
  }
}
