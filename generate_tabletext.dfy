/** The error table shown beside the plot in the model-object application
    (scripts/generate_tabletext.py). A row is six cells; a cell is symbolic
    text (literal pieces and str()/round() of numbers). */
module TableText {
  import opened Common
  import opened ModelObject

  type Row = seq<Cell>

  function Text(s: string): Cell {
    [Lit(s)]
  }

  /** 100 * count / n, the percentage a table cell shows. */
  function Percent(count: nat, n: nat): real
    requires n > 0
  {
    100.0 * count as real / n as real
  }

  /** '%s (%s)' % (str(count), str(round(percentage, 2))) */
  function ErrorCell(count: nat, n: nat): Cell
    requires n > 0
  {
    [IntStr(count), Lit(" ("), RoundStr(Percent(count, n), 2), Lit(")")]
  }

  /** generate_next_line: caption, range, the number of strains, then the
      very major, major and minor cells, each the count with its share of
      the strains in percent, or '0 (0)' for a band without strains. */
  function GenerateNextLine(caption: Cell, rangeValue: Cell, e: ErrorCounts): (line: Row)
    ensures |line| == 6
    ensures line[0] == caption && line[1] == rangeValue && line[2] == [IntStr(e.numStrains)]
    ensures e.numStrains == 0 ==> forall k :: 3 <= k < 6 ==> line[k] == Text("0 (0)")
    ensures e.numStrains > 0 ==>
      line[3] == ErrorCell(e.veryMajor, e.numStrains) && line[4] == ErrorCell(e.major, e.numStrains)
      && line[5] == ErrorCell(e.minor, e.numStrains)
  {
    var nextline := [caption, rangeValue] + [[IntStr(e.numStrains)]];
    if e.numStrains > 0 then
      nextline + [ErrorCell(e.veryMajor, e.numStrains), ErrorCell(e.major, e.numStrains), ErrorCell(e.minor, e.numStrains)]
    else
      nextline + [Text("0 (0)"), Text("0 (0)"), Text("0 (0)")]
  }

  /** When the errors of a table do not exceed its strains (as the tally
      guarantees), the three shown percentages lie in [0, 100] and add up to
      at most 100. */
  lemma PercentagesBounded(e: ErrorCounts)
    requires e.numStrains > 0 && Errors(e) <= e.numStrains
    ensures 0.0 <= Percent(e.veryMajor, e.numStrains) <= 100.0
    ensures 0.0 <= Percent(e.major, e.numStrains) <= 100.0
    ensures 0.0 <= Percent(e.minor, e.numStrains) <= 100.0
    ensures Percent(e.veryMajor, e.numStrains) + Percent(e.major, e.numStrains) + Percent(e.minor, e.numStrains) <= 100.0
  {
    var n := e.numStrains;
    ShareBounded(e.veryMajor, n);
    ShareBounded(e.major, n);
    ShareBounded(e.minor, n);
    ShareBounded(e.veryMajor + e.major + e.minor, n);
    ShareSum(e.veryMajor, e.major, e.minor, n);
  }

  lemma ShareBounded(count: nat, n: nat)
    requires 0 < n && count <= n
    ensures 0.0 <= Percent(count, n) <= 100.0
  {
    var a, d := count as real, n as real;
    assert a / d <= 1.0;
    ScaleShare(a, d);
  }

  lemma ShareSum(a: nat, b: nat, c: nat, n: nat)
    requires 0 < n
    ensures Percent(a, n) + Percent(b, n) + Percent(c, n) == Percent(a + b + c, n)
  {
    var d := n as real;
    assert (a as real + b as real + c as real) / d == a as real / d + b as real / d + c as real / d;
    ScaleShare(a as real, d);
    ScaleShare(b as real, d);
    ScaleShare(c as real, d);
    ScaleShare((a + b + c) as real, d);
  }

  // ---------------------------------------------------------------------------
  // The breakpoint text of the "Total" row

  /** Disk mode: '>=S (S) / R+1-S-1 (I) /\n<=R (R)' when S > R + 1, else
      '>=S (S) / <=R (R)'. */
  function DiskRangeText(s: real, r: real): Cell {
    if s > r + 1.0 then
      [Lit(">="), FloatStr(s), Lit(" (S) / "), FloatStr(r + 1.0), Lit("-"), FloatStr(s - 1.0),
       Lit(" (I) /\n<="), FloatStr(r), Lit(" (R)")]
    else
      [Lit(">="), FloatStr(s), Lit(" (S) / <="), FloatStr(r), Lit(" (R)")]
  }

  /** MIC mode, with the positions of S and R among the standard values:
      the intermediate range runs from the value after S to the value before
      R and is shown only when there is one. */
  function MicRangeText(bins: seq<real>, s: real, r: real, iS: nat, iR: nat): Cell
    requires iS < |bins| && iR < |bins|
  {
    if iR > iS + 1 then
      [Lit("<="), FloatStr(s), Lit(" (S) / "), BinStr(bins[iS + 1]), Lit("-"), BinStr(bins[iR - 1]),
       Lit(" (I) /\n>="), FloatStr(r), Lit(" (R)")]
    else
      [Lit("<="), FloatStr(s), Lit(" (S) / >="), FloatStr(r), Lit(" (R)")]
  }

  /** The MIC caption: list.index of R, then of S, raising for a value that
      is not standard. */
  function MicCaption(bins: seq<real>, s: real, r: real): (o: Outcome<Cell>)
    ensures o.Raised? <==> r !in bins || s !in bins
    ensures o.Returned? ==> o.value == MicRangeText(bins, s, r, IndexOf(bins, s).value, IndexOf(bins, r).value)
  {
    match IndexOf(bins, r)
    case None => Raised("ValueError")
    case Some(iR) =>
      match IndexOf(bins, s)
      case None => Raised("ValueError")
      case Some(iS) => Returned(MicRangeText(bins, s, r, iS, iR))
  }

  /** An intermediate part is shown exactly when S > R + 1; its bounds are
      then R + 1 and S - 1, in order exactly when S is at least R + 2 (always
      so for the engine's cutoffs, whose distance is a whole number). */
  lemma DiskIntermediate(s: real, r: real)
    ensures |DiskRangeText(s, r)| == 9 <==> s > r + 1.0
    ensures |DiskRangeText(s, r)| == 9 ==>
      DiskRangeText(s, r)[3] == FloatStr(r + 1.0) && DiskRangeText(s, r)[5] == FloatStr(s - 1.0)
      && (r + 1.0 <= s - 1.0 <==> s >= r + 2.0)
  {
  }

  /** In MIC mode the shown intermediate bounds are standard values strictly
      between S and R: the first one after S and the last one before R. */
  lemma MicIntermediate(bins: seq<real>, s: real, r: real)
    requires Increasing(bins) && s in bins && r in bins
    ensures var iS, iR := IndexOf(bins, s).value, IndexOf(bins, r).value;
      var t := MicRangeText(bins, s, r, iS, iR);
      (|t| == 9 <==> iR > iS + 1)
      && (|t| == 9 ==>
            s < bins[iS + 1] <= bins[iR - 1] < r
            && (forall j :: 0 <= j < |bins| && s < bins[j] ==> bins[iS + 1] <= bins[j])
            && (forall j :: 0 <= j < |bins| && bins[j] < r ==> bins[j] <= bins[iR - 1]))
  {
    var iS, iR := IndexOf(bins, s).value, IndexOf(bins, r).value;
    if iR > iS + 1 {
      Between(bins, iS, iR);
    }
  }

  /** Between positions i and k of increasing bins, i + 1 and k - 1 bound
      the bins strictly between bins[i] and bins[k]. */
  lemma Between(bins: seq<real>, i: nat, k: nat)
    requires Increasing(bins) && i + 1 < k < |bins|
    ensures bins[i] < bins[i + 1] <= bins[k - 1] < bins[k]
    ensures forall j :: 0 <= j < |bins| && bins[i] < bins[j] ==> bins[i + 1] <= bins[j]
    ensures forall j :: 0 <= j < |bins| && bins[j] < bins[k] ==> bins[j] <= bins[k - 1]
  {
    forall j | 0 <= j < |bins| && bins[i] < bins[j]
      ensures bins[i + 1] <= bins[j]
    {
      assert j >= i + 1;
    }
    forall j | 0 <= j < |bins| && bins[j] < bins[k]
      ensures bins[j] <= bins[k - 1]
    {
      assert j <= k - 1;
    }
  }

  // ---------------------------------------------------------------------------
  // generate_celltext

  /** The rows of the table text, given the breakpoint caption. */
  function TableRows(m: ModelParameterSet, cutoffText: Cell): (rows: seq<Row>)
    reads m
    ensures |rows| == (if m.micVsMic then 9 else 7)
    ensures forall k :: 0 <= k < |rows| ==> |rows[k]| == 6
    ensures rows[3][0] == cutoffText
    ensures rows[3][1] == Text("Total") && rows[4][1] == Text(">=I+2")
      && rows[5][1] == Text("I+1 to I-1") && rows[6][1] == Text("<=I-2")
    ensures rows[3][2] == [IntStr(m.errorCounts.numStrains)] && rows[4][2] == [IntStr(m.iPlus2Error.numStrains)]
      && rows[5][2] == [IntStr(m.iPlus1Minus1Error.numStrains)] && rows[6][2] == [IntStr(m.iMinus2Error.numStrains)]
    ensures m.micVsMic ==>
      rows[7][1] == [RoundStr(m.essentialAgreement, 2)] && rows[8][1] == [RoundStr(m.categoricalAgreement, 2)]
  {
    var header := if !m.micVsMic then Text("Proposed Disk\nBreakpoint (mm)") else Text("MIC breakpoints (mg/L)");
    var top := HeaderRows(header, m.strainName);
    var bands := BandRows(cutoffText, m);
    var rows := top + bands;
    assert rows[3] == bands[0] && rows[4] == bands[1] && rows[5] == bands[2] && rows[6] == bands[3];
    if m.micVsMic then
      var agreement := AgreementRows(m.essentialAgreement, m.categoricalAgreement);
      assert (rows + agreement)[3..7] == rows[3..7];
      rows + agreement
    else rows
  }

  /** The three heading rows: column titles, error kinds, the strain name. */
  function HeaderRows(header: Cell, strainName: string): (rows: seq<Row>)
    ensures |rows| == 3 && forall k :: 0 <= k < 3 ==> |rows[k]| == 6
  {
    [[header, Text("Range"), Text("No.\nIsolates"), Text(""), Text("No. of Errors"), Text("")],
     [Text(""), Text(""), Text(""), Text("Very\nmajor (%)"), Text("Major (%)"), Text("Minor (%)")],
     [Text(strainName), Text(""), Text(""), Text(""), Text(""), Text("")]]
  }

  /** The four band rows, "Total" first, each from its table. */
  function BandRows(cutoffText: Cell, m: ModelParameterSet): (rows: seq<Row>)
    reads m
    ensures |rows| == 4
    ensures rows[0] == GenerateNextLine(cutoffText, Text("Total"), m.errorCounts)
    ensures rows[1] == GenerateNextLine(Text(""), Text(">=I+2"), m.iPlus2Error)
    ensures rows[2] == GenerateNextLine(Text(""), Text("I+1 to I-1"), m.iPlus1Minus1Error)
    ensures rows[3] == GenerateNextLine(Text(""), Text("<=I-2"), m.iMinus2Error)
    ensures forall k :: 0 <= k < 4 ==> |rows[k]| == 6
    ensures rows[0][0] == cutoffText
    ensures rows[0][1] == Text("Total") && rows[1][1] == Text(">=I+2")
      && rows[2][1] == Text("I+1 to I-1") && rows[3][1] == Text("<=I-2")
    ensures rows[0][2] == [IntStr(m.errorCounts.numStrains)] && rows[1][2] == [IntStr(m.iPlus2Error.numStrains)]
      && rows[2][2] == [IntStr(m.iPlus1Minus1Error.numStrains)] && rows[3][2] == [IntStr(m.iMinus2Error.numStrains)]
  {
    [GenerateNextLine(cutoffText, Text("Total"), m.errorCounts),
     GenerateNextLine(Text(""), Text(">=I+2"), m.iPlus2Error),
     GenerateNextLine(Text(""), Text("I+1 to I-1"), m.iPlus1Minus1Error),
     GenerateNextLine(Text(""), Text("<=I-2"), m.iMinus2Error)]
  }

  /** The two agreement rows of MIC-vs-MIC mode. */
  function AgreementRows(essential: real, categorical: real): (rows: seq<Row>)
    ensures |rows| == 2 && |rows[0]| == 6 && |rows[1]| == 6
    ensures rows[0][1] == [RoundStr(essential, 2)] && rows[1][1] == [RoundStr(categorical, 2)]
  {
    [[Text("Essential agreement (%)"), [RoundStr(essential, 2)], Text(""), Text(""), Text(""), Text("")],
     [Text("Categorical agreement (%)"), [RoundStr(categorical, 2)], Text(""), Text(""), Text(""), Text("")]]
  }

  /** generate_celltext: float() of both disk cutoffs (a failure raises), the
      breakpoint caption of the mode (in MIC mode list.index of a cutoff that
      is not a standard value raises), and the rows. */
  function GenerateCelltext(m: ModelParameterSet): (o: Outcome<seq<Row>>)
    reads m
    ensures o.Raised? <==>
      !(m.xcutoffS.Numeric? && m.xcutoffR.Numeric?)
      || (m.micVsMic && (m.xcutoffR.value !in MicBins16 || m.xcutoffS.value !in MicBins16))
    ensures o.Returned? && !m.micVsMic ==>
      o.value == TableRows(m, DiskRangeText(m.xcutoffS.value, m.xcutoffR.value))
    ensures o.Returned? && m.micVsMic ==>
      o.value == TableRows(m, MicRangeText(MicBins16, m.xcutoffS.value, m.xcutoffR.value,
                                           IndexOf(MicBins16, m.xcutoffS.value).value, IndexOf(MicBins16, m.xcutoffR.value).value))
  {
    if !(m.xcutoffS.Numeric? && m.xcutoffR.Numeric?) then Raised("ValueError")
    else
      var diskcutoffS, diskcutoffR := m.xcutoffS.value, m.xcutoffR.value;
      if !m.micVsMic then
        Returned(TableRows(m, DiskRangeText(diskcutoffS, diskcutoffR)))
      else
        match MicCaption(MicBins16, diskcutoffS, diskcutoffR)
        case Raised(error) => Raised(error)
        case Returned(caption) => Returned(TableRows(m, caption))
  }
}
