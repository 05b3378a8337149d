/** `read_cf_txt` (src/final_merge.py and, identically, src/merge_all.py): parses an
    adjacency-list file, one `user item item ...` line per record, into a
    two-column table and a per-user history. */
module CfText {
  import opened Wrappers
  import opened Interactions

  /** One whitespace-separated token after `int()`; `None` when `int()` rejects it. */
  type Token = Option<int>

  /** One line after `strip().split()`. */
  type Line = seq<Token>

  /** The exception `int()` raises on a token that is not an integer literal. */
  datatype ParseError = NotAnInteger

  /** What `read_cf_txt` returns. For a missing file it is a column-less
      `pd.DataFrame()` and `{}`; otherwise the parsed table and history. */
  datatype CfTable = Missing | Loaded(rows: seq<Pair>, hist: History) {

    function Rows(): seq<Pair> {
      if Missing? then [] else rows
    }

    function Hist(): History {
      if Missing? then map[] else hist
    }
  }

  /** Every token of the line is an integer. */
  predicate AllInts(line: Line) {
    forall t :: t in line ==> t.Some?
  }

  /** The rows one kept line contributes: its user paired with each following token. */
  function LinePairs(line: Line): seq<Pair>
    requires |line| >= 2 && AllInts(line)
  {
    seq(|line| - 1, j requires 0 <= j < |line| - 1 => Pair(line[0].value, line[j + 1].value))
  }

  /** Some line of the file names user `p.user` first and item `p.item` after it.
      A line with fewer than two tokens mentions nothing. */
  ghost predicate Mentions(lines: seq<Line>, p: Pair) {
    exists li, t :: 0 <= li < |lines| && 1 <= t < |lines[li]|
      && lines[li][0] == Some(p.user) && lines[li][t] == Some(p.item)
  }

  /** Some line with at least two tokens has a token `int()` rejects. */
  ghost predicate HasBadToken(lines: seq<Line>) {
    exists li :: 0 <= li < |lines| && |lines[li]| >= 2 && !AllInts(lines[li])
  }

  /** The number of item tokens on lines with at least two tokens. */
  function ItemTokenCount(lines: seq<Line>): nat {
    if lines == [] then 0
    else
      var line := lines[|lines| - 1];
      ItemTokenCount(lines[..|lines| - 1]) + (if |line| >= 2 then |line| - 1 else 0)
  }

  /** The rows of the file's lines in file order: for every line with at least two tokens,
      all integers, its user paired with each item token in turn, repeats included. */
  function FileRows(lines: seq<Line>): seq<Pair> {
    if lines == [] then []
    else
      var line := lines[|lines| - 1];
      FileRows(lines[..|lines| - 1]) + (if |line| >= 2 && AllInts(line) then LinePairs(line) else [])
  }

  /** `rows` and `hist` are what the lines of an existing file parse to: the file's rows in
      order, hence one row per item token of a kept line, the rows being exactly the
      mentioned pairs, and the history indexing the rows. */
  ghost predicate ParsedFrom(lines: seq<Line>, rows: seq<Pair>, hist: History) {
    && rows == FileRows(lines)
    && |rows| == ItemTokenCount(lines)
    && (forall p :: p in rows <==> Mentions(lines, p))
    && hist == Index(rows)
  }

  /** The loop of `read_cf_txt` over the lines of an existing file. A line with fewer than
      two tokens is skipped; any other line with a non-integer token raises; otherwise every
      item token gives one row and the user's history gains the line's items. */
  function ParseLines(lines: seq<Line>): (r: Result<(seq<Pair>, History), ParseError>)
    ensures r.Failure? <==> HasBadToken(lines)
    ensures r.Success? ==> ParsedFrom(lines, r.value.0, r.value.1)
    decreases |lines|
  {
    if lines == [] then Success(([], map[]))
    else
      var init, line := lines[..|lines| - 1], lines[|lines| - 1];
      BadTokenStep(init, line);
      assert init + [line] == lines;
      match ParseLines(init)
      case Failure(e) => Failure(e)
      case Success((rows, hist)) =>
        if |line| < 2 then
          ParsedSkip(lines, rows, hist);
          Success((rows, hist))
        else if !AllInts(line) then Failure(NotAnInteger)
        else
          var u := line[0].value;
          ParsedStep(lines, rows, hist);
          Success((rows + LinePairs(line), hist[u := ItemsOf(hist, u) + LineItems(line)]))
  }

  lemma ParsedSkip(lines: seq<Line>, rows: seq<Pair>, hist: History)
    requires lines != [] && |lines[|lines| - 1]| < 2
    requires ParsedFrom(lines[..|lines| - 1], rows, hist)
    ensures ParsedFrom(lines, rows, hist)
  {
    var init, line := lines[..|lines| - 1], lines[|lines| - 1];
    assert init + [line] == lines;
    MentionsStep(init, line);
  }

  lemma ParsedStep(lines: seq<Line>, rows: seq<Pair>, hist: History)
    requires lines != [] && |lines[|lines| - 1]| >= 2 && AllInts(lines[|lines| - 1])
    requires ParsedFrom(lines[..|lines| - 1], rows, hist)
    ensures var line := lines[|lines| - 1];
      ParsedFrom(lines, rows + LinePairs(line), hist[line[0].value := ItemsOf(hist, line[0].value) + LineItems(line)])
  {
    var init, line := lines[..|lines| - 1], lines[|lines| - 1];
    assert init + [line] == lines;
    MentionsStep(init, line);
    LineStep(rows, hist, line);
  }

  /** `read_cf_txt(filepath)`, with `None` standing for a path that does not exist. */
  function ReadCf(file: Option<seq<Line>>): (r: Result<CfTable, ParseError>)
    ensures file.None? ==> r.Success? && r.value.Rows() == [] && r.value.Hist() == map[]
    ensures r.Success? ==> (r.value.Missing? <==> file.None?)
    ensures file.Some? ==> (r.Failure? <==> HasBadToken(file.value))
    ensures r.Success? ==> r.value.Hist() == Index(r.value.Rows())
    ensures r.Success? && file.Some? ==>
      && r.value.Rows() == FileRows(file.value)
      && |r.value.Rows()| == ItemTokenCount(file.value)
      && forall p :: p in r.value.Rows() <==> Mentions(file.value, p)
  {
    match file
    case None => Success(Missing)
    case Some(lines) =>
      match ParseLines(lines)
      case Failure(e) => Failure(e)
      case Success((rows, hist)) => Success(Loaded(rows, hist))
  }

  /** A repeated item token gives a repeated row: the lines `1 5 5` and `1 6` parse to the
      rows (1,5), (1,5), (1,6), in that order. */
  lemma RepeatedTokens()
    ensures var r := ParseLines([[Some(1), Some(5), Some(5)], [Some(1), Some(6)]]);
      r.Success? && r.value.0 == [Pair(1, 5), Pair(1, 5), Pair(1, 6)]
  {
    var l1, l2: Line := [Some(1), Some(5), Some(5)], [Some(1), Some(6)];
    var lines := [l1, l2];
    assert AllInts(l1) && AllInts(l2);
    assert !HasBadToken(lines) by {
      forall li | 0 <= li < |lines| ensures AllInts(lines[li]) {
      }
    }
    assert LinePairs(l1) == [Pair(1, 5), Pair(1, 5)];
    assert LinePairs(l2) == [Pair(1, 6)];
    assert lines[..1] == [l1];
    assert [l1][..0] == [];
    assert FileRows([l1]) == [] + LinePairs(l1);
    assert FileRows(lines) == FileRows([l1]) + LinePairs(l2);
  }

  /** `user_history[u]` is the union of the items on all of `u`'s lines, and only users
      with at least one kept line have an entry. */
  lemma HistoryIsLineUnion(lines: seq<Line>, u: int, x: int)
    requires ParseLines(lines).Success?
    ensures var h := ParseLines(lines).value.1;
      (u in h && x in h[u]) <==> Mentions(lines, Pair(u, x))
  {
    var rows := ParseLines(lines).value.0;
    assert ParsedFrom(lines, rows, ParseLines(lines).value.1);
    IndexItems(rows, u);
    if Mentions(lines, Pair(u, x)) {
      assert Pair(u, x) in rows;
    }
  }

  lemma MentionsStep(init: seq<Line>, line: Line)
    ensures forall p :: Mentions(init + [line], p) <==>
      Mentions(init, p) || exists t :: 1 <= t < |line| && line[0] == Some(p.user) && line[t] == Some(p.item)
  {
    var lines := init + [line];
    forall p ensures Mentions(lines, p) <==>
      Mentions(init, p) || exists t :: 1 <= t < |line| && line[0] == Some(p.user) && line[t] == Some(p.item)
    {
      if Mentions(lines, p) {
        var li, t :| 0 <= li < |lines| && 1 <= t < |lines[li]|
          && lines[li][0] == Some(p.user) && lines[li][t] == Some(p.item);
        if li < |init| {
          assert lines[li] == init[li];
        }
      }
      if Mentions(init, p) {
        var li, t :| 0 <= li < |init| && 1 <= t < |init[li]|
          && init[li][0] == Some(p.user) && init[li][t] == Some(p.item);
        assert lines[li] == init[li];
      }
      if exists t :: 1 <= t < |line| && line[0] == Some(p.user) && line[t] == Some(p.item) {
        var t :| 1 <= t < |line| && line[0] == Some(p.user) && line[t] == Some(p.item);
        assert lines[|init|] == line;
      }
    }
  }

  lemma BadTokenStep(init: seq<Line>, line: Line)
    ensures HasBadToken(init + [line]) <==> HasBadToken(init) || (|line| >= 2 && !AllInts(line))
  {
    var lines := init + [line];
    if HasBadToken(lines) {
      var li :| 0 <= li < |lines| && |lines[li]| >= 2 && !AllInts(lines[li]);
      if li < |init| {
        assert lines[li] == init[li];
      }
    }
    if HasBadToken(init) {
      var li :| 0 <= li < |init| && |init[li]| >= 2 && !AllInts(init[li]);
      assert lines[li] == init[li];
    }
    if |line| >= 2 && !AllInts(line) {
      assert lines[|init|] == line;
    }
  }

  /** The item tokens of a kept line, as integers. */
  function LineItems(line: Line): set<int>
    requires |line| >= 2 && AllInts(line)
  {
    set t | t in line[1..] :: t.value
  }

  /** The rows of a kept line are exactly its user paired with each of its item tokens. */
  lemma LinePairsMember(line: Line)
    requires |line| >= 2 && AllInts(line)
    ensures forall p :: p in LinePairs(line) <==>
      exists t :: 1 <= t < |line| && line[0] == Some(p.user) && line[t] == Some(p.item)
  {
    var lp := LinePairs(line);
    forall p ensures p in lp <==>
      exists t :: 1 <= t < |line| && line[0] == Some(p.user) && line[t] == Some(p.item)
    {
      if p in lp {
        var j :| 0 <= j < |lp| && lp[j] == p;
        assert line[j + 1] in line && line[0] in line;
        assert line[j + 1] == Some(p.item);
      }
      if exists t :: 1 <= t < |line| && line[0] == Some(p.user) && line[t] == Some(p.item) {
        var t :| 1 <= t < |line| && line[0] == Some(p.user) && line[t] == Some(p.item);
        assert lp[t - 1] == p;
      }
    }
  }

  /** A kept line has one user, whose items it lists. */
  lemma LinePairsIndex(line: Line)
    requires |line| >= 2 && AllInts(line)
    ensures Users(LinePairs(line)) == {line[0].value}
    ensures UserItems(LinePairs(line), line[0].value) == LineItems(line)
  {
    var u := line[0].value;
    var lp := LinePairs(line);
    forall x | x in LineItems(line) ensures x in UserItems(lp, u) {
      var t :| t in line[1..] && t.value == x;
      var j :| 0 <= j < |line[1..]| && line[1..][j] == t;
      assert lp[j] == Pair(u, x);
    }
    forall x | x in UserItems(lp, u) ensures x in LineItems(line) {
      var p :| p in lp && p.user == u && p.item == x;
      var j :| 0 <= j < |lp| && lp[j] == p;
      assert line[1..][j] == line[j + 1];
    }
    assert lp[0] in lp;
  }

  /** Appending one kept line to the table grows its index exactly at the line's user. */
  lemma LineStep(rows: seq<Pair>, hist: History, line: Line)
    requires |line| >= 2 && AllInts(line)
    requires hist == Index(rows)
    ensures var u := line[0].value;
      && hist[u := ItemsOf(hist, u) + LineItems(line)] == Index(rows + LinePairs(line))
      && (forall p :: p in LinePairs(line) <==>
            exists t :: 1 <= t < |line| && line[0] == Some(p.user) && line[t] == Some(p.item))
  {
    var u := line[0].value;
    var lp := LinePairs(line);
    var all := rows + lp;
    LinePairsMember(line);
    LinePairsIndex(line);
    assert Users(all) == Users(rows) + Users(lp);
    var h', ix := hist[u := ItemsOf(hist, u) + LineItems(line)], Index(all);
    forall v | v in h' ensures h'[v] == ix[v] {
      IndexItems(all, v);
      IndexItems(rows, v);
      assert UserItems(all, v) == UserItems(rows, v) + UserItems(lp, v);
    }
    assert forall v :: v in h' <==> v in ix;
    assert forall v :: v in h' ==> h'[v] == ix[v];
  }
}
