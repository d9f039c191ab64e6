/**
 * analyzePerformance: one pass over the watchlist rows (fetched ordered by
 * highest_multiplier, descending) that prints a detail line per row with a
 * single separator before the first row below 1.5, counts rows and wins per
 * group in a dictionary kept in first-encounter order, and then prints the
 * overall and per-group win rates.
 */
module Stats {
  import opened Watchlist

  datatype ScanRow = ScanRow(ca: string, initialPrice: real, currentPrice: real,
                             highestMultiplier: real, groupName: string)

  predicate IsWin(row: ScanRow) {
    row.highestMultiplier >= WinMultiplier
  }

  /** A printed line of the detail listing. */
  datatype Line = Detail(ca: string, multiplier: real, group: string) | Separator

  /** The `{ total, wins }` record kept per group. */
  datatype GroupStats = GroupStats(total: nat, wins: nat)

  datatype GroupSummary = GroupSummary(group: string, total: nat, wins: nat, winRate: real)

  datatype Report = Report(lines: seq<Line>, overallTotal: nat, overallWins: nat,
                           overallWinRate: real, groups: seq<GroupSummary>)

  // -------------------------------------------------------- reference counts

  /** The number of rows from group g. */
  function CountGroup(rows: seq<ScanRow>, g: string): (n: nat)
    ensures n <= |rows|
  {
    if rows == [] then 0
    else CountGroup(rows[..|rows| - 1], g) + if rows[|rows| - 1].groupName == g then 1 else 0
  }

  /** The number of winning rows from group g. */
  function WinsInGroup(rows: seq<ScanRow>, g: string): (n: nat)
    ensures n <= CountGroup(rows, g)
  {
    if rows == [] then 0
    else
      var last := rows[|rows| - 1];
      WinsInGroup(rows[..|rows| - 1], g) + if last.groupName == g && IsWin(last) then 1 else 0
  }

  /** The number of winning rows. */
  function CountWins(rows: seq<ScanRow>): (n: nat)
    ensures n <= |rows|
  {
    if rows == [] then 0
    else CountWins(rows[..|rows| - 1]) + if IsWin(rows[|rows| - 1]) then 1 else 0
  }

  /** The index of the first row from group g, or |rows| when there is none. */
  function FirstIndex(rows: seq<ScanRow>, g: string): (i: nat)
    ensures i <= |rows|
    ensures i < |rows| ==> rows[i].groupName == g
    ensures forall q | 0 <= q < i :: rows[q].groupName != g
  {
    if rows == [] then 0
    else
      var prefix := rows[..|rows| - 1];
      var i := FirstIndex(prefix, g);
      if i < |prefix| then i
      else if rows[|rows| - 1].groupName == g then |prefix|
      else |rows|
  }

  /** The groups of the rows, each once, in the order they are first met. */
  function GroupOrder(rows: seq<ScanRow>): seq<string> {
    if rows == [] then []
    else
      var order := GroupOrder(rows[..|rows| - 1]);
      var g := rows[|rows| - 1].groupName;
      if g in order then order else order + [g]
  }

  /** Each group is listed once, and exactly the groups that have a row are listed. */
  lemma {:induction false} GroupOrderMembers(rows: seq<ScanRow>)
    ensures forall i, j | 0 <= i < j < |GroupOrder(rows)| :: GroupOrder(rows)[i] != GroupOrder(rows)[j]
    ensures forall g :: g in GroupOrder(rows) <==> FirstIndex(rows, g) < |rows|
  {
    if rows != [] {
      var prefix := rows[..|rows| - 1];
      var order := GroupOrder(prefix);
      var g := rows[|rows| - 1].groupName;
      GroupOrderMembers(prefix);
      if g !in order {
        var order' := order + [g];
        assert GroupOrder(rows) == order';
        forall i, j | 0 <= i < j < |order'|
          ensures order'[i] != order'[j]
        {
          assert order'[i] == order[i] && order[i] in order;
          if j < |order| {
            assert order'[j] == order[j];
          }
        }
      }
    }
  }

  /**
   * The group dictionary after a pass over the rows: the entry of each row's
   * group is created at zero when missing, then its total, and its wins when
   * the row is a win, go up by one.
   */
  function StatsOf(rows: seq<ScanRow>): map<string, GroupStats> {
    if rows == [] then map[]
    else
      var stats := StatsOf(rows[..|rows| - 1]);
      var last := rows[|rows| - 1];
      var entry := if last.groupName in stats then stats[last.groupName] else GroupStats(0, 0);
      stats[last.groupName := GroupStats(entry.total + 1, entry.wins + if IsWin(last) then 1 else 0)]
  }

  /** The dictionary holds exactly the listed groups, each with its row and win counts. */
  lemma {:induction false} StatsOfCounts(rows: seq<ScanRow>)
    ensures forall g :: g in StatsOf(rows) <==> g in GroupOrder(rows)
    ensures forall g | g in StatsOf(rows) :: StatsOf(rows)[g] == GroupStats(CountGroup(rows, g), WinsInGroup(rows, g))
  {
    if rows != [] {
      var prefix := rows[..|rows| - 1];
      var g := rows[|rows| - 1].groupName;
      StatsOfCounts(prefix);
      if g !in StatsOf(prefix) {
        GroupOrderMembers(prefix);
        CountGroupAbsent(prefix, g);
      }
    }
  }

  // ------------------------------------------------------------ the listing

  predicate HasLoss(rows: seq<ScanRow>) {
    exists k | 0 <= k < |rows| :: !IsWin(rows[k])
  }

  function Details(rows: seq<ScanRow>): (lines: seq<Line>)
    ensures |lines| == |rows|
    ensures forall k | 0 <= k < |rows| ::
              lines[k] == Detail(rows[k].ca, rows[k].highestMultiplier, rows[k].groupName)
  {
    if rows == [] then []
    else
      var last := rows[|rows| - 1];
      Details(rows[..|rows| - 1]) + [Detail(last.ca, last.highestMultiplier, last.groupName)]
  }

  /** The detail lines as the loop prints them, with `lineDrawn` guarding the separator. */
  function Listing(rows: seq<ScanRow>): seq<Line> {
    if rows == [] then []
    else
      var prefix := rows[..|rows| - 1];
      var last := rows[|rows| - 1];
      Listing(prefix)
      + (if !IsWin(last) && !HasLoss(prefix) then [Separator] else [])
      + [Detail(last.ca, last.highestMultiplier, last.groupName)]
  }

  // -------------------------------------------------------------- win rates

  /** `total > 0 ? (wins / total) * 100 : 0`. */
  function WinRate(wins: nat, total: nat): (r: real)
    ensures total == 0 ==> r == 0.0
    ensures total > 0 ==> r * (total as real) == 100.0 * (wins as real)
    ensures wins <= total ==> 0.0 <= r <= 100.0
  {
    if total > 0 then
      var q := (wins as real) / (total as real);
      assert q * (total as real) == wins as real;
      assert wins <= total ==> q <= 1.0;
      q * 100.0
    else 0.0
  }

  function Summary(rows: seq<ScanRow>, g: string): GroupSummary {
    var total := CountGroup(rows, g);
    var wins := WinsInGroup(rows, g);
    GroupSummary(g, total, wins, WinRate(wins, total))
  }

  /** The summaries of the groups in `order`, in that order. */
  function Summaries(rows: seq<ScanRow>, order: seq<string>): (gs: seq<GroupSummary>)
    ensures |gs| == |order|
    ensures forall k | 0 <= k < |order| :: gs[k] == Summary(rows, order[k])
  {
    if order == [] then []
    else Summaries(rows, order[..|order| - 1]) + [Summary(rows, order[|order| - 1])]
  }

  /** `reduce((sum, stats) => sum + stats.total, 0)`. */
  function SumTotals(gs: seq<GroupSummary>): nat {
    if gs == [] then 0 else SumTotals(gs[..|gs| - 1]) + gs[|gs| - 1].total
  }

  /** `reduce((sum, stats) => sum + stats.wins, 0)`. */
  function SumWins(gs: seq<GroupSummary>): nat {
    if gs == [] then 0 else SumWins(gs[..|gs| - 1]) + gs[|gs| - 1].wins
  }

  /** The report analyzePerformance prints for the given rows. */
  function Analysis(rows: seq<ScanRow>): Report {
    var groups := Summaries(rows, GroupOrder(rows));
    var total := SumTotals(groups);
    var wins := SumWins(groups);
    Report(Listing(rows), total, wins, WinRate(wins, total), groups)
  }

  // ----------------------------------------------------------------- lemmas

  /** Appending a row adds it to the sums of exactly the group it belongs to. */
  lemma {:induction false} SumsAfterAppend(rows: seq<ScanRow>, x: ScanRow, order: seq<string>)
    requires forall i, j | 0 <= i < j < |order| :: order[i] != order[j]
    ensures SumTotals(Summaries(rows + [x], order))
            == SumTotals(Summaries(rows, order)) + if x.groupName in order then 1 else 0
    ensures SumWins(Summaries(rows + [x], order))
            == SumWins(Summaries(rows, order)) + if x.groupName in order && IsWin(x) then 1 else 0
  {
    if order != [] {
      var xs := rows + [x];
      var init := order[..|order| - 1];
      var g := order[|order| - 1];
      assert xs[..|xs| - 1] == rows && xs[|xs| - 1] == x;
      forall k | 0 <= k < |init|
        ensures init[k] != g
      {
        assert init[k] == order[k];
      }
      SumsAfterAppend(rows, x, init);
      assert Summaries(xs, order) == Summaries(xs, init) + [Summary(xs, g)];
      assert Summaries(rows, order) == Summaries(rows, init) + [Summary(rows, g)];
      assert CountGroup(xs, g) == CountGroup(rows, g) + if x.groupName == g then 1 else 0;
      assert WinsInGroup(xs, g) == WinsInGroup(rows, g) + if x.groupName == g && IsWin(x) then 1 else 0;
      assert x.groupName in order <==> x.groupName in init || x.groupName == g;
    }
  }

  /**
   * The overall figures count every row once: the overall total is the number
   * of rows and the overall wins the number of rows at or above 1.5.
   */
  lemma OverallCountsEveryRow(rows: seq<ScanRow>)
    ensures Analysis(rows).overallTotal == |rows|
    ensures Analysis(rows).overallWins == CountWins(rows)
    ensures Analysis(rows).overallWinRate == WinRate(CountWins(rows), |rows|)
    ensures 0.0 <= Analysis(rows).overallWinRate <= 100.0
  {
    SummedCountsEveryRow(rows);
  }

  /** Summing the per-group totals and wins counts every row once. */
  lemma {:induction false} SummedCountsEveryRow(rows: seq<ScanRow>)
    ensures SumTotals(Summaries(rows, GroupOrder(rows))) == |rows|
    ensures SumWins(Summaries(rows, GroupOrder(rows))) == CountWins(rows)
  {
    if rows != [] {
      var prefix := rows[..|rows| - 1];
      var x := rows[|rows| - 1];
      assert rows == prefix + [x];
      var order := GroupOrder(prefix);
      SummedCountsEveryRow(prefix);
      assert SumTotals(Summaries(rows, order)) == |prefix| + (if x.groupName in order then 1 else 0)
          && SumWins(Summaries(rows, order))
             == CountWins(prefix) + (if x.groupName in order && IsWin(x) then 1 else 0) by {
        GroupOrderMembers(prefix);
        SumsAfterAppend(prefix, x, order);
      }
      if x.groupName !in order {
        var g := x.groupName;
        assert CountGroup(prefix, g) == 0 && WinsInGroup(prefix, g) == 0 by {
          GroupOrderMembers(prefix);
          CountGroupAbsent(prefix, g);
        }
        assert Summaries(rows, order + [g]) == Summaries(rows, order) + [Summary(rows, g)] by {
          assert (order + [g])[..|order|] == order;
        }
      }
    }
  }

  /**
   * Every printed group has at least one row, at most as many wins as rows,
   * and its win rate (100 * wins / total, see WinRate) lies between 0 and 100.
   */
  lemma GroupSummariesBounded(rows: seq<ScanRow>)
    ensures forall k | 0 <= k < |Analysis(rows).groups| ::
              var gs := Analysis(rows).groups[k];
              && 1 <= gs.total && gs.wins <= gs.total
              && gs.winRate == WinRate(gs.wins, gs.total)
              && 0.0 <= gs.winRate <= 100.0
  {
    var groups := Analysis(rows).groups;
    forall k | 0 <= k < |groups|
      ensures 1 <= groups[k].total && groups[k].wins <= groups[k].total
      ensures groups[k].winRate == WinRate(groups[k].wins, groups[k].total)
      ensures 0.0 <= groups[k].winRate <= 100.0
    {
      var g := GroupOrder(rows)[k];
      assert groups[k] == Summary(rows, g);
      assert FirstIndex(rows, g) < |rows| by {
        GroupOrderMembers(rows);
      }
      CountGroupPresent(rows, FirstIndex(rows, g));
      var total, wins := CountGroup(rows, g), WinsInGroup(rows, g);
      assert groups[k] == GroupSummary(g, total, wins, WinRate(wins, total));
    }
  }

  /** A group that has a row at index i has a count of at least one. */
  lemma {:induction false} CountGroupPresent(rows: seq<ScanRow>, i: nat)
    requires i < |rows|
    ensures CountGroup(rows, rows[i].groupName) >= 1
  {
    var prefix := rows[..|rows| - 1];
    if i < |prefix| {
      assert prefix[i] == rows[i];
      CountGroupPresent(prefix, i);
    }
  }

  /** A group with no row has no count. */
  lemma {:induction false} CountGroupAbsent(rows: seq<ScanRow>, g: string)
    requires forall k | 0 <= k < |rows| :: rows[k].groupName != g
    ensures CountGroup(rows, g) == 0
  {
    if rows != [] {
      CountGroupAbsent(rows[..|rows| - 1], g);
    }
  }

  /** Group summaries are listed in the order in which their groups first appear among the rows. */
  lemma {:induction false} GroupOrderIsFirstAppearance(rows: seq<ScanRow>)
    ensures forall i, j | 0 <= i < j < |GroupOrder(rows)| ::
              FirstIndex(rows, GroupOrder(rows)[i]) < FirstIndex(rows, GroupOrder(rows)[j]) < |rows|
  {
    forall i, j | 0 <= i < j < |GroupOrder(rows)|
      ensures FirstIndex(rows, GroupOrder(rows)[i]) < FirstIndex(rows, GroupOrder(rows)[j]) < |rows|
    {
      FirstAppearanceOrdered(rows, i, j);
    }
    assert forall i, j | 0 <= i < j < |GroupOrder(rows)| ::
              FirstIndex(rows, GroupOrder(rows)[i]) < FirstIndex(rows, GroupOrder(rows)[j]) < |rows|;
  }

  /** The first rows of two listed groups come in the order the groups are listed. */
  lemma {:induction false} FirstAppearanceOrdered(rows: seq<ScanRow>, i: nat, j: nat)
    requires i < j < |GroupOrder(rows)|
    ensures FirstIndex(rows, GroupOrder(rows)[i]) < FirstIndex(rows, GroupOrder(rows)[j]) < |rows|
  {
    var prefix := rows[..|rows| - 1];
    var order := GroupOrder(prefix);
    var g := rows[|rows| - 1].groupName;
    var h := order[i];
    assert GroupOrder(rows)[i] == h;
    assert FirstIndex(prefix, h) < |prefix| by {
      GroupOrderMembers(prefix);
    }
    assert FirstIndex(rows, h) == FirstIndex(prefix, h);
    if j < |order| {
      FirstAppearanceOrdered(prefix, i, j);
      assert GroupOrder(rows)[j] == order[j];
      assert FirstIndex(rows, order[j]) == FirstIndex(prefix, order[j]);
    } else {
      assert GroupOrder(rows)[j] == g && g !in order;
      assert FirstIndex(prefix, g) == |prefix| by {
        GroupOrderMembers(prefix);
      }
    }
  }

  /** Without a row below 1.5 the listing is one detail line per row, in order, and no separator. */
  lemma {:induction false} ListingWithoutLoss(rows: seq<ScanRow>)
    requires forall k | 0 <= k < |rows| :: IsWin(rows[k])
    ensures Listing(rows) == Details(rows)
  {
    if rows != [] {
      ListingWithoutLoss(rows[..|rows| - 1]);
    }
  }

  /**
   * With a first row below 1.5 at index k, the listing is the detail lines in
   * row order with exactly one separator, just before row k; if the rows are
   * sorted by multiplier, descending, every row from k on is a loss.
   */
  lemma {:induction false} ListingSeparatorAt(rows: seq<ScanRow>, k: nat)
    requires k < |rows| && !IsWin(rows[k])
    requires forall j | 0 <= j < k :: IsWin(rows[j])
    ensures Listing(rows) == Details(rows[..k]) + [Separator] + Details(rows[k..])
    ensures (forall i, j | 0 <= i < j < |rows| :: rows[i].highestMultiplier >= rows[j].highestMultiplier)
            ==> forall j | k <= j < |rows| :: !IsWin(rows[j])
  {
    var prefix := rows[..|rows| - 1];
    if |rows| == k + 1 {
      ListingWithoutLoss(prefix);
      assert prefix == rows[..k];
      assert !HasLoss(prefix);
    } else {
      ListingSeparatorAt(prefix, k);
      assert HasLoss(prefix) by {
        assert !IsWin(prefix[k]);
      }
      assert prefix[..k] == rows[..k];
      assert rows[k..][..|rows[k..]| - 1] == prefix[k..];
    }
  }

  /** The rows of the worked example: two rows of G1 (one win), one of G2 (a win). */
  function ExampleRows(): seq<ScanRow> {
    [ScanRow("A", 1.0, 2.0, 2.0, "G1"), ScanRow("B", 1.0, 1.2, 1.2, "G1"), ScanRow("C", 1.0, 3.0, 3.0, "G2")]
  }

  /** The worked example's groups: G1 at one win in two (50%), G2 at one in one (100%). */
  lemma ExampleGroups()
    ensures Analysis(ExampleRows()).groups == [GroupSummary("G1", 2, 1, 50.0), GroupSummary("G2", 1, 1, 100.0)]
  {
    var rows := ExampleRows();
    ExampleCounts();
    assert WinRate(1, 2) == 50.0 && WinRate(1, 1) == 100.0;
    assert Summaries(rows, ["G1", "G2"]) == [Summary(rows, "G1"), Summary(rows, "G2")] by {
      assert ["G1", "G2"][..1] == ["G1"] && ["G1"][..0] == [];
    }
  }

  /** The group order and the per-group counts of the worked example. */
  lemma ExampleCounts()
    ensures GroupOrder(ExampleRows()) == ["G1", "G2"]
    ensures CountGroup(ExampleRows(), "G1") == 2 && WinsInGroup(ExampleRows(), "G1") == 1
    ensures CountGroup(ExampleRows(), "G2") == 1 && WinsInGroup(ExampleRows(), "G2") == 1
  {
    var rows := ExampleRows();
    var a, b := rows[0], rows[1];
    assert rows[..2] == [a, b] && [a, b][..1] == [a] && [a][..0] == [];
    assert GroupOrder([a, b]) == ["G1"] by {
      assert GroupOrder([a]) == ["G1"];
    }
    assert CountGroup([a, b], "G1") == 2 && WinsInGroup([a, b], "G1") == 1;
    assert CountGroup([a, b], "G2") == 0 && WinsInGroup([a, b], "G2") == 0;
  }

  /** The worked example overall: three plays, two wins, a win rate of 200/3 percent. */
  lemma ExampleOverall()
    ensures Analysis(ExampleRows()).overallTotal == 3
    ensures Analysis(ExampleRows()).overallWins == 2
    ensures Analysis(ExampleRows()).overallWinRate == 200.0 / 3.0
  {
    var rows := ExampleRows();
    var a, b := rows[0], rows[1];
    assert rows[..2] == [a, b] && [a, b][..1] == [a] && [a][..0] == [];
    assert CountWins(rows) == 2 by {
      assert CountWins([a]) == 1 && CountWins([a, b]) == 1;
    }
    assert WinRate(2, 3) == 200.0 / 3.0;
    OverallCountsEveryRow(rows);
  }

  // ------------------------------------------------------------ the program

  /** How the group order and the dictionary grow when the loop takes row i. */
  lemma TakeRowGroups(rows: seq<ScanRow>, i: nat)
    requires i < |rows|
    ensures var g := rows[i].groupName;
            && GroupOrder(rows[..i + 1])
               == (if g in GroupOrder(rows[..i]) then GroupOrder(rows[..i])
                   else GroupOrder(rows[..i]) + [g])
            && StatsOf(rows[..i + 1])
               == (var entry := if g in StatsOf(rows[..i]) then StatsOf(rows[..i])[g] else GroupStats(0, 0);
                   StatsOf(rows[..i])[g := GroupStats(entry.total + 1, entry.wins + if IsWin(rows[i]) then 1 else 0)])
  {
    assert rows[..i + 1][..i] == rows[..i] && rows[..i + 1][i] == rows[i];
  }

  /** How the listing grows when the loop takes row i. */
  lemma TakeRowListing(rows: seq<ScanRow>, i: nat)
    requires i < |rows|
    ensures var row := rows[i];
            && (HasLoss(rows[..i + 1]) <==> HasLoss(rows[..i]) || !IsWin(row))
            && Listing(rows[..i + 1])
               == Listing(rows[..i]) + (if !IsWin(row) && !HasLoss(rows[..i]) then [Separator] else [])
                  + [Detail(row.ca, row.highestMultiplier, row.groupName)]
  {
    assert rows[..i + 1][..i] == rows[..i] && rows[..i + 1][i] == rows[i];
    if HasLoss(rows[..i + 1]) && !IsWin(rows[i]) {
      assert !IsWin(rows[..i + 1][i]);
    }
  }

  /**
   * The `rows.forEach` pass: prints the detail lines and fills the group
   * dictionary (`order` is its key order, `stats` its contents).
   */
  method TallyRows(rows: seq<ScanRow>) returns (lines: seq<Line>, order: seq<string>, stats: map<string, GroupStats>)
    ensures lines == Listing(rows)
    ensures order == GroupOrder(rows)
    ensures stats == StatsOf(rows)
    ensures forall g :: g in stats <==> g in order
    ensures forall g | g in stats :: stats[g] == GroupStats(CountGroup(rows, g), WinsInGroup(rows, g))
  {
    order, stats, lines := [], map[], [];
    var lineDrawn := false;
    var i := 0;
    while i < |rows|
      invariant 0 <= i <= |rows|
      invariant order == GroupOrder(rows[..i])
      invariant stats == StatsOf(rows[..i])
      invariant lineDrawn == HasLoss(rows[..i])
      invariant lines == Listing(rows[..i])
    {
      var row := rows[i];
      if !IsWin(row) && !lineDrawn {
        lines := lines + [Separator];
        lineDrawn := true;
      }
      lines := lines + [Detail(row.ca, row.highestMultiplier, row.groupName)];
      assert lines == Listing(rows[..i + 1]) && lineDrawn == HasLoss(rows[..i + 1]) by {
        TakeRowListing(rows, i);
      }
      var g := row.groupName;
      assert g in stats <==> g in order by {
        StatsOfCounts(rows[..i]);
      }
      if g !in stats {
        stats := stats[g := GroupStats(0, 0)];
        order := order + [g];
      }
      var entry := stats[g];
      entry := entry.(total := entry.total + 1);
      if IsWin(row) {
        entry := entry.(wins := entry.wins + 1);
      }
      stats := stats[g := entry];
      assert stats == StatsOf(rows[..i + 1]) && order == GroupOrder(rows[..i + 1]) by {
        TakeRowGroups(rows, i);
      }
      i := i + 1;
    }
    assert rows[..i] == rows;
    StatsOfCounts(rows);
  }

  /** analyzePerformance on the rows of the query. */
  method AnalyzePerformance(rows: seq<ScanRow>) returns (report: Report)
    ensures report == Analysis(rows)
  {
    var lines, order, stats := TallyRows(rows);
    var groups: seq<GroupSummary> := [];
    var j := 0;
    while j < |order|
      invariant 0 <= j <= |order|
      invariant groups == Summaries(rows, order[..j])
    {
      assert order[..j + 1][..j] == order[..j];
      var st := stats[order[j]];
      groups := groups + [GroupSummary(order[j], st.total, st.wins, WinRate(st.wins, st.total))];
      j := j + 1;
    }
    assert order[..j] == order;
    var overallWins := SumWins(groups);
    var overallTotal := SumTotals(groups);
    report := Report(lines, overallTotal, overallWins, WinRate(overallWins, overallTotal), groups);
  }
}
