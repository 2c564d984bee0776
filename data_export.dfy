/** The results export of the older application (DISKMASHER/data_export.py):
    the breakpoint line with its inequality signs, the error summary, and the
    chart of how often each (MIC, disk zone) pair occurs. Writing the file is
    not modelled: whether it can be opened is a parameter, and the text is
    returned as cells. */
module DataExport {
  import opened Common
  import Masher

  // ---------------------------------------------------------------------------
  // Rounding and the inequality signs

  /** math.ceil */
  function Ceil(x: real): (c: int)
    ensures x <= c as real < x + 1.0
  {
    if x.Floor as real == x then x.Floor else x.Floor + 1
  }

  /** Python's round() to an integer: the nearest integer, ties to even. */
  function Round(x: real): (r: int)
    ensures r == x.Floor || r == x.Floor + 1
    ensures x - 0.5 <= r as real <= x + 0.5
    ensures x - x.Floor as real == 0.5 ==> r % 2 == 0
  {
    var f := x.Floor;
    var d := x - f as real;
    if d < 0.5 then f else if d > 0.5 then f + 1 else if f % 2 == 0 then f else f + 1
  }

  /** '<=' when math.floor(R) == round(R), else '<': inclusive exactly when
      the printed zone does not exceed R. */
  function ResistantSign(r: real): (sign: string)
    ensures sign == "<=" || sign == "<"
    ensures sign == "<=" <==> Round(r) as real <= r
  {
    if r.Floor == Round(r) then "<=" else "<"
  }

  /** '>=' when math.ceil(S) == round(S), else '>': inclusive exactly when
      the printed zone is not below S. */
  function SusceptibleSign(s: real): (sign: string)
    ensures sign == ">=" || sign == ">"
    ensures sign == ">=" <==> Round(s) as real >= s
  {
    if Ceil(s) == Round(s) then ">=" else ">"
  }

  /** A whole-number cutoff always gets an inclusive sign. */
  lemma IntegralCutoffsInclusive(n: int)
    ensures ResistantSign(n as real) == "<=" && SusceptibleSign(n as real) == ">="
  {
  }

  /** The printed resistant condition, sign and round(R), selects exactly
      the whole-number zones at or below R. */
  lemma ResistantConditionExact(r: real, z: int)
    ensures (z as real <= r) <==> (if ResistantSign(r) == "<=" then z <= Round(r) else z < Round(r))
  {
    var f := r.Floor;
    assert f as real <= r < f as real + 1.0;
    if z as real <= r {
      assert z <= f;
    }
  }

  /** The printed susceptible condition, sign and round(S), selects exactly
      the whole-number zones at or above S. */
  lemma SusceptibleConditionExact(s: real, z: int)
    ensures (z as real >= s) <==> (if SusceptibleSign(s) == ">=" then z >= Round(s) else z > Round(s))
  {
    var c := Ceil(s);
    if z as real >= s {
      assert z >= c;
    }
  }

  /** 'Resistant: zone <sign><round(R)>    Susceptible: zone <sign><round(S)>,' */
  function BreakpointText(diskS: real, diskR: real): Cell {
    [Lit("Resistant: zone "), Lit(ResistantSign(diskR)), IntStr(Round(diskR)),
     Lit("    Susceptible: zone "), Lit(SusceptibleSign(diskS)), IntStr(Round(diskS)), Lit(",")]
  }


  // ---------------------------------------------------------------------------
  // np.unique

  /** Strictly ascending in the order np.unique sorts by. */
  predicate Ascending(s: seq<Held>) {
    forall i, j :: 0 <= i < j < |s| ==> HeldLess(s[i], s[j])
  }

  /** An ascending list holds each value once. */
  lemma AscendingDistinct(u: seq<Held>)
    requires Ascending(u)
    ensures forall i, j :: 0 <= i < |u| && 0 <= j < |u| && i != j ==> u[i] != u[j]
  {
    forall i, j | 0 <= i < |u| && 0 <= j < |u| && i != j
      ensures u[i] != u[j]
    {
      HeldLessStrictTotal(u[i], u[j]);
    }
  }

  /** A value below the head of an ascending list is below all of it. */
  lemma BelowHead(v: Held, u: seq<Held>)
    requires Ascending(u) && |u| > 0 && HeldLess(v, u[0])
    ensures forall x :: x in u ==> HeldLess(v, x)
  {
    forall x | x in u
      ensures HeldLess(v, x)
    {
      var j :| 0 <= j < |u| && u[j] == x;
      if j > 0 {
        HeldLessTransitive(v, u[0], x);
      }
    }
  }

  /** Insertion of v into an ascending list without duplicates. */
  function Insert(u: seq<Held>, v: Held): (w: seq<Held>)
    requires Ascending(u)
    ensures Ascending(w)
    ensures forall x :: x in w <==> x in u || x == v
  {
    if |u| == 0 then [v]
    else if HeldLess(v, u[0]) then
      BelowHead(v, u);
      ConsAscending(v, u);
      [v] + u
    else if v == u[0] then u
    else
      HeldLessStrictTotal(v, u[0]);
      var rest := Insert(u[1..], v);
      assert forall x :: x in rest ==> HeldLess(u[0], x);
      ConsAscending(u[0], rest);
      [u[0]] + rest
  }

  /** A value below every element of an ascending list may go in front. */
  lemma ConsAscending(h: Held, rest: seq<Held>)
    requires Ascending(rest) && forall x :: x in rest ==> HeldLess(h, x)
    ensures Ascending([h] + rest)
  {
    var w := [h] + rest;
    forall i, j | 0 <= i < j < |w|
      ensures HeldLess(w[i], w[j])
    {
      assert w[j] == rest[j - 1];
      if i > 0 {
        assert w[i] == rest[i - 1];
      } else {
        assert rest[j - 1] in rest;
      }
    }
  }

  /** np.unique: the distinct values of s in ascending order. */
  function Unique(s: seq<Held>): (u: seq<Held>)
    ensures Ascending(u)
    ensures forall x :: x in u <==> x in s
  {
    if |s| == 0 then []
    else
      assert s == s[..|s| - 1] + [s[|s| - 1]];
      Insert(Unique(s[..|s| - 1]), s[|s| - 1])
  }

  // ---------------------------------------------------------------------------
  // Counting

  /** How often v occurs in s. */
  function Occurrences(s: seq<Held>, v: Held): (n: nat)
    ensures n <= |s|
    ensures v !in s ==> n == 0
  {
    if |s| == 0 then 0
    else Occurrences(s[..|s| - 1], v) + (if s[|s| - 1] == v then 1 else 0)
  }

  /** The rows k < n with MIC m and disk zone d. */
  function Pairs(ms: seq<Held>, ds: seq<Held>, n: nat, m: Held, d: Held): nat
    requires n <= |ms| == |ds|
  {
    if n == 0 then 0
    else Pairs(ms, ds, n - 1, m, d) + (if ms[n - 1] == m && ds[n - 1] == d then 1 else 0)
  }

  /** A value of an ascending list occurs in it once. */
  lemma {:induction false} OccursOnce(u: seq<Held>, x: Held)
    requires Ascending(u) && x in u
    ensures Occurrences(u, x) == 1
  {
    var n := |u| - 1;
    assert Ascending(u[..n]);
    if u[n] == x {
      AscendingDistinct(u);
      assert x !in u[..n];
    } else {
      assert x in u[..n] by {
        assert u == u[..n] + [u[n]];
      }
      OccursOnce(u[..n], x);
    }
  }

  /** The cells of the chart's row m over the zones vs, added up. */
  function RowTotal(ms: seq<Held>, ds: seq<Held>, n: nat, m: Held, vs: seq<Held>): nat
    requires n <= |ms| == |ds|
  {
    if |vs| == 0 then 0 else RowTotal(ms, ds, n, m, vs[..|vs| - 1]) + Pairs(ms, ds, n, m, vs[|vs| - 1])
  }

  /** All cells of the chart, row by row. */
  function GridTotal(ms: seq<Held>, ds: seq<Held>, n: nat, us: seq<Held>, vs: seq<Held>): nat
    requires n <= |ms| == |ds|
  {
    if |us| == 0 then 0 else GridTotal(ms, ds, n, us[..|us| - 1], vs) + RowTotal(ms, ds, n, us[|us| - 1], vs)
  }

  lemma {:induction false} RowStep(ms: seq<Held>, ds: seq<Held>, n: nat, m: Held, vs: seq<Held>)
    requires n < |ms| == |ds|
    ensures RowTotal(ms, ds, n + 1, m, vs)
            == RowTotal(ms, ds, n, m, vs) + (if ms[n] == m then Occurrences(vs, ds[n]) else 0)
  {
    if |vs| > 0 {
      RowStep(ms, ds, n, m, vs[..|vs| - 1]);
    }
  }

  lemma {:induction false} GridStep(ms: seq<Held>, ds: seq<Held>, n: nat, us: seq<Held>, vs: seq<Held>)
    requires n < |ms| == |ds| && Ascending(vs) && ds[n] in vs
    ensures GridTotal(ms, ds, n + 1, us, vs) == GridTotal(ms, ds, n, us, vs) + Occurrences(us, ms[n])
  {
    if |us| > 0 {
      GridStep(ms, ds, n, us[..|us| - 1], vs);
      RowStep(ms, ds, n, us[|us| - 1], vs);
      OccursOnce(vs, ds[n]);
    }
  }

  lemma {:induction false} EmptyGrid(ms: seq<Held>, ds: seq<Held>, us: seq<Held>, vs: seq<Held>)
    requires |ms| == |ds|
    ensures GridTotal(ms, ds, 0, us, vs) == 0
  {
    if |us| > 0 {
      EmptyGrid(ms, ds, us[..|us| - 1], vs);
      EmptyRow(ms, ds, us[|us| - 1], vs);
    }
  }

  lemma {:induction false} EmptyRow(ms: seq<Held>, ds: seq<Held>, m: Held, vs: seq<Held>)
    requires |ms| == |ds|
    ensures RowTotal(ms, ds, 0, m, vs) == 0
  {
    if |vs| > 0 {
      EmptyRow(ms, ds, m, vs[..|vs| - 1]);
    }
  }

  /** With the distinct MICs and the distinct zones as rows and columns and
      every row of the data found among them, the chart's cells add up to
      the number of rows: each row is counted once. */
  lemma {:induction false} GridCountsEveryRow(ms: seq<Held>, ds: seq<Held>, n: nat, us: seq<Held>, vs: seq<Held>)
    requires n <= |ms| == |ds| && Ascending(us) && Ascending(vs)
    requires forall k :: 0 <= k < n ==> ms[k] in us && ds[k] in vs
    ensures GridTotal(ms, ds, n, us, vs) == n
  {
    if n == 0 {
      EmptyGrid(ms, ds, us, vs);
    } else {
      GridCountsEveryRow(ms, ds, n - 1, us, vs);
      GridStep(ms, ds, n - 1, us, vs);
      OccursOnce(us, ms[n - 1]);
    }
  }

  // ---------------------------------------------------------------------------
  // The chart

  /** The MICs are clipped to [0.016, 256] before they are looked up. */
  function ClipMics(mics: seq<real>): (c: seq<Held>)
    ensures |c| == |mics| && forall i :: 0 <= i < |mics| ==> c[i] == Num(Clip(mics[i], 0.016, 256.0))
  {
    seq(|mics|, i requires 0 <= i < |mics| => Num(Clip(mics[i], 0.016, 256.0)))
  }

  /** Row i of the data lands in cell (a0, b0), the positions of its MIC and
      zone, and in no other cell. */
  lemma CellStep(ms: seq<Held>, ds: seq<Held>, i: nat, us: seq<Held>, vs: seq<Held>, a0: nat, b0: nat)
    requires |ms| == |ds| && i < |ms| && Ascending(us) && Ascending(vs)
    requires a0 < |us| && b0 < |vs| && us[a0] == ms[i] && vs[b0] == ds[i]
    ensures forall a, b :: 0 <= a < |us| && 0 <= b < |vs| ==>
      Pairs(ms, ds, i + 1, us[a], vs[b]) == Pairs(ms, ds, i, us[a], vs[b]) + (if a == a0 && b == b0 then 1 else 0)
  {
    AscendingDistinct(us);
    AscendingDistinct(vs);
    forall a, b | 0 <= a < |us| && 0 <= b < |vs|
      ensures Pairs(ms, ds, i + 1, us[a], vs[b]) == Pairs(ms, ds, i, us[a], vs[b]) + (if a == a0 && b == b0 then 1 else 0)
    {
      assert us[a] == ms[i] <==> a == a0;
      assert vs[b] == ds[i] <==> b == b0;
    }
  }

  /** The chart: rows are the distinct MICs (before clipping), columns the
      distinct zones as the frame holds them, and each row adds 1 at its
      clipped MIC and its zone. ok is false when a clipped MIC is not among
      the rows (list.index raises). */
  method TallyGrid(mics: seq<real>, disks: seq<Held>)
    returns (ok: bool, micValues: seq<Held>, diskValues: seq<Held>, grid: array2<int>)
    requires |mics| == |disks|
    ensures micValues == Unique(Nums(mics)) && diskValues == Unique(disks)
    ensures grid.Length0 == |micValues| && grid.Length1 == |diskValues|
    ensures ok <==> forall i :: 0 <= i < |mics| ==> ClipMics(mics)[i] in micValues
    ensures ok ==> forall a, b :: 0 <= a < |micValues| && 0 <= b < |diskValues| ==>
      grid[a, b] == Pairs(ClipMics(mics), disks, |mics|, micValues[a], diskValues[b])
  {
    diskValues := Unique(disks);
    micValues := Unique(Nums(mics));
    var exportMics := ClipMics(mics);
    assert forall k :: 0 <= k < |disks| ==> disks[k] in diskValues by {
      forall k | 0 <= k < |disks|
        ensures disks[k] in diskValues
      {
        assert disks[k] in disks;
      }
    }
    ok, grid := CountPairs(exportMics, disks, micValues, diskValues);
  }

  /** The counting loop of TallyGrid: row i adds 1 at the position of its
      MIC and of its zone; a MIC that is not among the rows stops the loop. */
  method CountPairs(ms: seq<Held>, ds: seq<Held>, us: seq<Held>, vs: seq<Held>) returns (ok: bool, grid: array2<int>)
    requires |ms| == |ds| && Ascending(us) && Ascending(vs)
    requires forall k :: 0 <= k < |ds| ==> ds[k] in vs
    ensures grid.Length0 == |us| && grid.Length1 == |vs|
    ensures ok <==> forall i :: 0 <= i < |ms| ==> ms[i] in us
    ensures ok ==> forall a, b :: 0 <= a < |us| && 0 <= b < |vs| ==> grid[a, b] == Pairs(ms, ds, |ms|, us[a], vs[b])
  {
    grid := new int[|us|, |vs|]((_, _) => 0);
    for i := 0 to |ms|
      invariant Counted(grid, ms, ds, i, us, vs)
      invariant forall k :: 0 <= k < i ==> ms[k] in us
    {
      var found := CountRow(grid, ms, ds, i, us, vs);
      if !found {
        return false, grid;
      }
    }
    return true, grid;
  }

  /** The grid has a cell per row and column value, and each cell counts the
      data rows before n with that MIC and zone. */
  ghost predicate Counted(grid: array2<int>, ms: seq<Held>, ds: seq<Held>, n: nat, us: seq<Held>, vs: seq<Held>)
    reads grid
    requires n <= |ms| == |ds|
  {
    grid.Length0 == |us| && grid.Length1 == |vs|
    && forall a, b :: 0 <= a < |us| && 0 <= b < |vs| ==> grid[a, b] == Pairs(ms, ds, n, us[a], vs[b])
  }

  /** Row i of the loop: when its MIC is among the rows, its cell goes up by
      one; otherwise nothing changes. */
  method CountRow(grid: array2<int>, ms: seq<Held>, ds: seq<Held>, i: nat, us: seq<Held>, vs: seq<Held>) returns (found: bool)
    requires i < |ms| == |ds| && Ascending(us) && Ascending(vs)
    requires forall k :: 0 <= k < |ds| ==> ds[k] in vs
    requires Counted(grid, ms, ds, i, us, vs)
    modifies grid
    ensures found <==> ms[i] in us
    ensures found ==> Counted(grid, ms, ds, i + 1, us, vs)
  {
    var row := IndexOf(us, ms[i]);
    if row.None? {
      return false;
    }
    var col := ZoneColumn(ms, ds, vs, i);
    AddPair(grid, ms, ds, i, us, vs, row.value, col);
    return true;
  }

  /** The column of row i's zone, which is among the columns. */
  function ZoneColumn(ms: seq<Held>, ds: seq<Held>, vs: seq<Held>, i: nat): (b: nat)
    requires i < |ms| == |ds| && forall k :: 0 <= k < |ds| ==> ds[k] in vs
    ensures b < |vs| && vs[b] == ds[i]
  {
    assert ds[i] in vs;
    IndexOf(vs, ds[i]).value
  }

  /** One step of the loop: the cell of row i's MIC and zone goes up by one,
      so the grid now counts the rows before i + 1. */
  method AddPair(grid: array2<int>, ms: seq<Held>, ds: seq<Held>, i: nat, us: seq<Held>, vs: seq<Held>, a0: nat, b0: nat)
    requires i < |ms| == |ds| && Ascending(us) && Ascending(vs)
    requires grid.Length0 == |us| && grid.Length1 == |vs|
    requires a0 < |us| && us[a0] == ms[i] && b0 < |vs| && vs[b0] == ds[i]
    requires forall a, b :: 0 <= a < |us| && 0 <= b < |vs| ==> grid[a, b] == Pairs(ms, ds, i, us[a], vs[b])
    modifies grid
    ensures forall a, b :: 0 <= a < |us| && 0 <= b < |vs| ==> grid[a, b] == Pairs(ms, ds, i + 1, us[a], vs[b])
  {
    grid[a0, b0] := grid[a0, b0] + 1;
    CellStep(ms, ds, i, us, vs, a0, b0);
  }

  /** str() of a value of the frame: the number, or the text itself. */
  function HeldStr(h: Held): Piece {
    match h
    case Num(x) => FloatStr(x)
    case Text(s) => Lit(s)
  }

  /** A chart cell as written: the count (a float, as in the zero-filled
      numpy grid), or nothing for a zero. */
  function CountText(c: int): Cell {
    if c > 0 then [FloatStr(c as real)] else [Lit("")]
  }

  /** One line of the chart: its MIC, then a cell per zone. */
  method GridLine(mic: Held, grid: array2<int>, a: nat) returns (line: seq<Cell>)
    requires a < grid.Length0
    ensures |line| == grid.Length1 + 1 && line[0] == [HeldStr(mic)]
    ensures forall b :: 0 <= b < grid.Length1 ==> line[b + 1] == CountText(grid[a, b])
  {
    line := [[HeldStr(mic)]];
    for j := 0 to grid.Length1
      invariant |line| == j + 1 && line[0] == [HeldStr(mic)]
      invariant forall b :: 0 <= b < j ==> line[b + 1] == CountText(grid[a, b])
    {
      line := line + [CountText(grid[a, j])];
    }
  }

  /** The lines of the chart, one per MIC row. */
  method GridLines(micValues: seq<Held>, grid: array2<int>) returns (lines: seq<seq<Cell>>)
    requires grid.Length0 == |micValues|
    ensures |lines| == |micValues|
    ensures forall a :: 0 <= a < |lines| ==> |lines[a]| == grid.Length1 + 1 && lines[a][0] == [HeldStr(micValues[a])]
    ensures forall a, b :: 0 <= a < |lines| && 0 <= b < grid.Length1 ==> lines[a][b + 1] == CountText(grid[a, b])
  {
    lines := [];
    for i := 0 to grid.Length0
      invariant |lines| == i
      invariant forall a :: 0 <= a < i ==> |lines[a]| == grid.Length1 + 1 && lines[a][0] == [HeldStr(micValues[a])]
      invariant forall a, b :: 0 <= a < i && 0 <= b < grid.Length1 ==> lines[a][b + 1] == CountText(grid[a, b])
    {
      var outputLine := GridLine(micValues[i], grid, i);
      lines := lines + [outputLine];
    }
  }

  // ---------------------------------------------------------------------------
  // export_results

  const ExportMessageStart := "The data could not be exported. The program is trying to write to a file called '"
  const ExportMessageEnd := "'. Make sure that you don't have a file by this name already open."

  /** The message of every failure of export_results, naming the file. */
  function ExportMessage(filename: string): string {
    ExportMessageStart + filename + ExportMessageEnd
  }

  /** The last line: an empty cell under the MIC column, then the zones. */
  function ZoneFooter(vs: seq<Held>): (f: seq<Cell>)
    ensures |f| == |vs| + 1 && f[0] == [Lit("")]
    ensures forall b :: 0 <= b < |vs| ==> f[b + 1] == [HeldStr(vs[b])]
  {
    [[Lit("")]] + seq(|vs|, b requires 0 <= b < |vs| => [HeldStr(vs[b])])
  }

  /** The written report: the breakpoint line, the summary cells (strains,
      very major, major, minor), the chart lines and the footer of zones. */
  datatype Report = Report(breakpoints: Cell, summary: seq<Cell>, lines: seq<seq<Cell>>, footer: seq<Cell>)

  /** list.index finds every clipped MIC among the chart's rows. */
  predicate RowsFound(ms: seq<real>) {
    forall i :: 0 <= i < |ms| ==> ClipMics(ms)[i] in Unique(Nums(ms))
  }

  /** lines is the chart of the rows (ms, ds): one line per distinct MIC,
      starting with it, then the count of each (clipped MIC, zone) pair for
      each distinct zone. */
  predicate IsChart(ms: seq<real>, ds: seq<Held>, lines: seq<seq<Cell>>)
    requires |ms| == |ds|
  {
    ChartOver(Unique(Nums(ms)), Unique(ds), ClipMics(ms), ds, lines)
  }

  /** lines is the chart with rows us and columns vs of the pairs (cms, ds). */
  predicate ChartOver(us: seq<Held>, vs: seq<Held>, cms: seq<Held>, ds: seq<Held>, lines: seq<seq<Cell>>)
    requires |cms| == |ds|
  {
    |lines| == |us|
    && (forall a :: 0 <= a < |us| ==> |lines[a]| == |vs| + 1 && lines[a][0] == [HeldStr(us[a])])
    && (forall a, b :: 0 <= a < |us| && 0 <= b < |vs| ==>
          lines[a][b + 1] == CountText(Pairs(cms, ds, |cms|, us[a], vs[b])))
  }

  /** Lines that write out a grid of pair counts are the chart. */
  lemma ChartFromGrid(us: seq<Held>, vs: seq<Held>, cms: seq<Held>, ds: seq<Held>, grid: array2<int>, lines: seq<seq<Cell>>)
    requires |cms| == |ds| && grid.Length0 == |us| && grid.Length1 == |vs|
    requires forall a, b :: 0 <= a < |us| && 0 <= b < |vs| ==> grid[a, b] == Pairs(cms, ds, |cms|, us[a], vs[b])
    requires |lines| == |us|
    requires forall a :: 0 <= a < |lines| ==> |lines[a]| == grid.Length1 + 1 && lines[a][0] == [HeldStr(us[a])]
    requires forall a, b :: 0 <= a < |lines| && 0 <= b < grid.Length1 ==> lines[a][b + 1] == CountText(grid[a, b])
    ensures ChartOver(us, vs, cms, ds, lines)
  {
  }

  /** The chart part of export_results: the tally, then its lines and the
      zone footer. */
  method Chart(ms: seq<real>, ds: seq<Held>) returns (ok: bool, lines: seq<seq<Cell>>, footer: seq<Cell>)
    requires |ms| == |ds|
    ensures ok <==> RowsFound(ms)
    ensures ok ==> IsChart(ms, ds, lines) && footer == ZoneFooter(Unique(ds))
  {
    var micValues, diskValues, grid;
    ok, micValues, diskValues, grid := TallyGrid(ms, ds);
    if !ok {
      return false, [], [];
    }
    lines := GridLines(micValues, grid);
    ChartFromGrid(micValues, diskValues, ClipMics(ms), ds, grid, lines);
    footer := ZoneFooter(diskValues);
  }

  /** Whether everything export_results converts or compares with a number
      is numeric: the two disk cutoffs (float()) and the MICs (np.clip). The
      zones are only sorted, looked up and printed, so a text column is
      exported as text. */
  predicate Exportable(app: Masher.DiskMasher)
    reads app
  {
    app.diskcutoffS.Numeric? && app.diskcutoffR.Numeric? && AllNumeric(app.currentDataset.mics)
  }

  /** The summary cells: the number of strains and the three error counts. */
  function Summary(n: nat, e: Masher.MasherErrors): seq<Cell> {
    [[IntStr(n)], [IntStr(e.veryMajor)], [IntStr(e.major)], [IntStr(e.minor)]]
  }

  /** The report written for numeric MICs ms, zones ds and cutoffs, or None
      when a clipped MIC is not a row of the chart. */
  method BuildReport(ms: seq<real>, ds: seq<Held>, diskcutoffS: real, diskcutoffR: real, e: Masher.MasherErrors)
    returns (report: Option<Report>)
    requires |ms| == |ds|
    ensures report.Some? <==> RowsFound(ms)
    ensures report.Some? ==>
      report.value.breakpoints == BreakpointText(diskcutoffS, diskcutoffR)
      && report.value.summary == Summary(|ms|, e)
      && IsChart(ms, ds, report.value.lines)
      && report.value.footer == ZoneFooter(Unique(ds))
  {
    var breakpoints := BreakpointText(diskcutoffS, diskcutoffR);
    var summary := Summary(|ms|, e);
    var ok, lines, footer := Chart(ms, ds);
    if !ok {
      return None;
    }
    return Some(Report(breakpoints, summary, lines, footer));
  }

  /** export_results: any failure (the file cannot be opened, a cutoff or a
      MIC is not numeric, a clipped MIC is not a row of the chart) returns
      the export message; otherwise '0' and the report, whose zones are the
      disk column as the frame holds it, numbers or text. */
  method ExportResults(app: Masher.DiskMasher, filename: string, canOpen: bool)
    returns (code: string, report: Option<Report>)
    ensures !(canOpen && Exportable(app)) ==> code == ExportMessage(filename) && report == None
    ensures canOpen && Exportable(app) ==>
      var ms, ds := Values(app.currentDataset.mics), app.currentDataset.diskCells;
      (!RowsFound(ms) ==> code == ExportMessage(filename) && report == None)
      && (RowsFound(ms) ==>
            code == "0" && report.Some?
            && report.value.breakpoints == BreakpointText(app.diskcutoffS.value, app.diskcutoffR.value)
            && report.value.summary == Summary(|ms|, app.errorCounts)
            && IsChart(ms, ds, report.value.lines)
            && report.value.footer == ZoneFooter(Unique(ds)))
  {
    if !canOpen || !(app.diskcutoffS.Numeric? && app.diskcutoffR.Numeric?) {
      return ExportMessage(filename), None;
    }
    if !AllNumeric(app.currentDataset.mics) {
      return ExportMessage(filename), None;
    }
    var ms, ds := Values(app.currentDataset.mics), app.currentDataset.diskCells;
    report := BuildReport(ms, ds, app.diskcutoffS.value, app.diskcutoffR.value, app.errorCounts);
    if report.None? {
      return ExportMessage(filename), None;
    }
    code := "0";
  }
}
