/** The plotting entry of the model-object application
    (scripts/disk_plotting.py): validation of the four cutoffs, the error
    tables and table text, and the positions of the cutoff lines. The drawing
    itself is not modelled. */
module DiskPlotting {
  import opened Common
  import opened ModelObject
  import TableText

  const MicBreakpointMessage := "You have entered an invalid MIC breakpoint (<0.06 or >120). Try again."
  const DiskCutoffMessage := "You have entered an invalid disk cutoff(<0.12 or >64). Try again."
  const NonNumericCutoffMessage := "You have entered a non-numeric MIC breakpoint or disk cutoff. Try again."
  const PlotDataMessage := "Your data could not be plotted. It probably contains non-numeric or negative values. Try again."

  /** The plausible range of a MIC breakpoint: [0.06, 120]. */
  predicate MicBreakpointValid(v: real) {
    0.06 <= v <= 120.0
  }

  /** The plausible range of a disk cutoff: [0.12, 64]. */
  predicate DiskCutoffValid(v: real) {
    0.12 <= v <= 64.0
  }

  /** An entry that parses to a number in the given range. */
  predicate MicOk(e: Entry) {
    e.Numeric? && MicBreakpointValid(e.value)
  }

  predicate DiskOk(e: Entry) {
    e.Numeric? && DiskCutoffValid(e.value)
  }

  /** The checks of gen_plot in order: both MIC breakpoints are converted
      before the try block (a failure escapes), then the range of S, of R, of
      the disk S and of the disk R, where a disk cutoff that does not parse
      gives the non-numeric message. "0" means every check passed. */
  function CheckCutoffs(yS: Entry, yR: Entry, xS: Entry, xR: Entry): (o: Outcome<string>)
    ensures o.Raised? <==> !(yS.Numeric? && yR.Numeric?)
    ensures o == Returned("0") <==> MicOk(yS) && MicOk(yR) && DiskOk(xS) && DiskOk(xR)
    ensures o == Returned(MicBreakpointMessage) <==>
      yS.Numeric? && yR.Numeric? && !(MicOk(yS) && MicOk(yR))
    ensures o == Returned(NonNumericCutoffMessage) <==>
      MicOk(yS) && MicOk(yR) && (!xS.Numeric? || (DiskOk(xS) && !xR.Numeric?))
    ensures o == Returned(DiskCutoffMessage) <==>
      MicOk(yS) && MicOk(yR)
      && ((xS.Numeric? && !DiskCutoffValid(xS.value)) || (DiskOk(xS) && xR.Numeric? && !DiskCutoffValid(xR.value)))
  {
    if !(yS.Numeric? && yR.Numeric?) then Raised("ValueError")
    else if !MicBreakpointValid(yS.value) then Returned(MicBreakpointMessage)
    else if !MicBreakpointValid(yR.value) then Returned(MicBreakpointMessage)
    else if !xS.Numeric? then Returned(NonNumericCutoffMessage)
    else if !DiskCutoffValid(xS.value) then Returned(DiskCutoffMessage)
    else if !xR.Numeric? then Returned(NonNumericCutoffMessage)
    else if !DiskCutoffValid(xR.value) then Returned(DiskCutoffMessage)
    else Returned("0")
  }

  // ---------------------------------------------------------------------------
  // Where the susceptible MIC line is drawn

  /** r is v moved up to the next bin when v lies in [bins[0], last bin), and
      v itself otherwise. */
  predicate RaisedToNextBin(bins: seq<real>, v: real, r: real)
    requires |bins| > 0
  {
    (bins[0] <= v < bins[|bins| - 1] ==>
       r in bins && v < r && forall j :: 0 <= j < |bins| && v < bins[j] ==> r <= bins[j])
    && (!(bins[0] <= v < bins[|bins| - 1]) ==> r == v)
  }

  /** The axis is binned at standard MIC values, so the susceptible line is
      drawn one bin up: the first i with bins[i] <= S < bins[i+1] moves S to
      bins[i+1]. */
  method SnapSusceptibleMic(micCutoffS: real) returns (s: real)
    ensures RaisedToNextBin(MicBins15, micCutoffS, s)
  {
    BinsIncreasing();
    s := RaiseToNextBin(MicBins15, micCutoffS);
  }

  /** The loop of SnapSusceptibleMic over any increasing list of bins. */
  method RaiseToNextBin(ybins: seq<real>, cutoff: real) returns (s: real)
    requires Increasing(ybins) && |ybins| > 0
    ensures RaisedToNextBin(ybins, cutoff, s)
  {
    s := cutoff;
    for i := 0 to |ybins| - 1
      invariant s == cutoff
      invariant ybins[0] <= cutoff ==> ybins[i] <= cutoff
    {
      if s >= ybins[i] && s < ybins[i + 1] {
        LocateAbove(ybins, cutoff, i + 1);
        NextBinIsLeast(ybins, cutoff);
        s := ybins[i + 1];
        break;
      }
    }
  }

  /** The first bin above v is the least bin above v. */
  lemma NextBinIsLeast(bins: seq<real>, v: real)
    requires Increasing(bins) && FirstAbove(bins, v) < |bins|
    ensures forall j :: 0 <= j < |bins| && v < bins[j] ==> bins[FirstAbove(bins, v)] <= bins[j]
  {
  }

  // ---------------------------------------------------------------------------
  // Where the susceptible cutoff line is drawn in MIC-vs-MIC mode

  /** A cutoff of at most 128 is moved to the standard value after it
      (list.index raises when it is not one of the fifteen values); anything
      larger is drawn at 256. */
  function RoundedCutoffS(xcutoffS: real): (o: Outcome<real>)
    ensures o.Raised? <==> xcutoffS <= 128.0 && xcutoffS !in MicBins15
    ensures xcutoffS > 128.0 ==> o == Returned(256.0)
    ensures o.Returned? && xcutoffS <= 128.0 ==>
      o.value in MicBins15 && xcutoffS < o.value
      && forall j :: 0 <= j < |MicBins15| && xcutoffS < MicBins15[j] ==> o.value <= MicBins15[j]
  {
    if xcutoffS <= 128.0 then
      match IndexOf(MicBins15, xcutoffS)
      case None => Raised("ValueError")
      case Some(i) =>
        BinsIncreasing();
        assert i + 1 < |MicBins15| by {
          assert MicBins15[14] == 256.0;
        }
        NextAfter(MicBins15, i);
        Returned(MicBins15[i + 1])
    else Returned(256.0)
  }

  /** In increasing bins the one after bins[i] is the least bin above it. */
  lemma NextAfter(bins: seq<real>, i: nat)
    requires Increasing(bins) && i + 1 < |bins|
    ensures bins[i] < bins[i + 1]
    ensures forall j :: 0 <= j < |bins| && bins[i] < bins[j] ==> bins[i + 1] <= bins[j]
  {
    forall j | 0 <= j < |bins| && bins[i] < bins[j]
      ensures bins[i + 1] <= bins[j]
    {
      assert j > i;
    }
  }

  /** The table text lists 0.125 among the MIC values it accepts, while the
      line position uses the fifteen values without it: a MIC-vs-MIC cutoff
      of 0.125 passes validation and the table but raises here. */
  lemma EighthAcceptedByTableOnly()
    ensures DiskCutoffValid(0.125) && 0.125 in MicBins16
    ensures RoundedCutoffS(0.125).Raised?
  {
    assert MicBins16[4] == 0.125;
    BinsIncreasing();
    BetweenNeighbours(MicBins15, 3, 0.125);
  }

  /** A value strictly between two neighbouring bins is not a bin. */
  lemma BetweenNeighbours(bins: seq<real>, i: nat, v: real)
    requires Increasing(bins) && i + 1 < |bins| && bins[i] < v < bins[i + 1]
    ensures v !in bins
  {
    forall j | 0 <= j < |bins|
      ensures bins[j] != v
    {
      if j <= i {
        assert bins[j] <= bins[i];
      } else {
        assert bins[i + 1] <= bins[j];
      }
    }
  }

  // ---------------------------------------------------------------------------
  // gen_plot

  /** What gen_plot produces: a message, or the table text and the positions
      of the susceptible MIC line and (in MIC-vs-MIC mode) of the susceptible
      cutoff line. */
  datatype Plot =
    | Message(text: string)
    | Drawn(celltext: seq<TableText.Row>, micLineS: real, cutoffLineS: Option<real>)

  twostate predicate TablesRecomputed(m: ModelParameterSet)
    reads m
    requires old(m.CutoffsNumeric()) && old(m.dataset).Some?
  {
    var d := old(m.dataset).value;
    var mode := if old(m.micVsMic) then MicVsMicMode else DiskMode;
    m.CutoffsNumeric() && m.TablesOf() == Tally(Reset(|d.mics|), d.mics, d.disks, m.Cuts(), mode)
  }

  /** gen_plot up to the drawing: validation, the data check (no dataset
      cannot be clipped), the error tables, the table text and the cutoff
      line positions. */
  method GenPlot(m: ModelParameterSet) returns (o: Outcome<Plot>)
    modifies m
    ensures m.SettingsKept()
    ensures
      var check := CheckCutoffs(old(m.ycutoffS), old(m.ycutoffR), old(m.xcutoffS), old(m.xcutoffR));
      (check.Raised? ==> o == Raised(check.exception) && unchanged(m))
      && (check.Returned? && check.value != "0" ==> o == Returned(Message(check.value)) && unchanged(m))
      && (check == Returned("0") && old(m.dataset).None? ==> o == Returned(Message(PlotDataMessage)) && unchanged(m))
    ensures old(m.CutoffsNumeric()) && old(m.dataset).Some? && CheckCutoffs(old(m.ycutoffS), old(m.ycutoffR), old(m.xcutoffS), old(m.xcutoffR)) == Returned("0") ==>
      TablesRecomputed(m)
      && (m.micVsMic && |old(m.dataset).value.mics| == 0 ==> o == Raised("ZeroDivisionError"))
      && (!(m.micVsMic && |old(m.dataset).value.mics| == 0) ==>
            var cells := TableText.GenerateCelltext(m);
            (cells.Raised? ==> o == Raised(cells.exception))
            && (cells.Returned? && m.micVsMic && RoundedCutoffS(m.xcutoffS.value).Raised? ==>
                  o == Raised(RoundedCutoffS(m.xcutoffS.value).exception))
            && (cells.Returned? && !(m.micVsMic && RoundedCutoffS(m.xcutoffS.value).Raised?) ==>
                  o.Returned? && o.value.Drawn? && o.value.celltext == cells.value
                  && RaisedToNextBin(MicBins15, m.ycutoffS.value, o.value.micLineS)
                  && o.value.cutoffLineS == (if m.micVsMic then Some(RoundedCutoffS(m.xcutoffS.value).value) else None)))
  {
    var check := CheckCutoffs(m.ycutoffS, m.ycutoffR, m.xcutoffS, m.xcutoffR);
    if check.Raised? {
      return Raised(check.exception);
    }
    if check.value != "0" {
      return Returned(Message(check.value));
    }
    if m.dataset.None? {
      return Returned(Message(PlotDataMessage));
    }
    var errorCode := m.UpdateErrorTables(m.micVsMic);
    if errorCode.Raised? {
      return Raised(errorCode.exception);
    }
    if errorCode.value != "0" {
      // the only other code, for a cutoff that does not parse, is ruled out by the checks above
      assert false;
    }
    var cellText := TableText.GenerateCelltext(m);
    if cellText.Raised? {
      return Raised(cellText.exception);
    }
    var micCutoffS := SnapSusceptibleMic(m.ycutoffS.value);
    var cutoffLineS := None;
    if m.micVsMic {
      var rounded := RoundedCutoffS(m.xcutoffS.value);
      if rounded.Raised? {
        return Raised(rounded.exception);
      }
      cutoffLineS := Some(rounded.value);
    }
    return Returned(Drawn(cellText.value, micCutoffS, cutoffLineS));
  }
}
