/** The plotting entry of the older application (scripts/plotting.py): the
    validation of the four cutoffs, the rounding of MIC-vs-MIC cutoffs to
    standard values for the cutoff lines, and the confusion-matrix table
    text. The drawing itself is not modelled. */
module Plotting {
  import opened Common
  import DiskPlotting
  import Masher

  /** The checks of gen_plot: all four values are converted first (any
      failure gives the non-numeric message), then the range of the MIC S,
      the MIC R, the disk S and the disk R with the bounds of the newer
      application. "0" means every check passed; nothing raises. */
  function CheckCutoffs(micS: Entry, micR: Entry, diskS: Entry, diskR: Entry): (msg: string)
    ensures msg == "0" <==>
      DiskPlotting.MicOk(micS) && DiskPlotting.MicOk(micR) && DiskPlotting.DiskOk(diskS) && DiskPlotting.DiskOk(diskR)
    ensures msg == DiskPlotting.NonNumericCutoffMessage <==>
      !(micS.Numeric? && micR.Numeric? && diskS.Numeric? && diskR.Numeric?)
    ensures msg == DiskPlotting.MicBreakpointMessage <==>
      micS.Numeric? && micR.Numeric? && diskS.Numeric? && diskR.Numeric?
      && !(DiskPlotting.MicOk(micS) && DiskPlotting.MicOk(micR))
    ensures msg == DiskPlotting.DiskCutoffMessage <==>
      DiskPlotting.MicOk(micS) && DiskPlotting.MicOk(micR) && diskS.Numeric? && diskR.Numeric?
      && !(DiskPlotting.DiskOk(diskS) && DiskPlotting.DiskOk(diskR))
  {
    if !(micS.Numeric? && micR.Numeric? && diskS.Numeric? && diskR.Numeric?) then
      DiskPlotting.NonNumericCutoffMessage
    else if !DiskPlotting.MicBreakpointValid(micS.value) then DiskPlotting.MicBreakpointMessage
    else if !DiskPlotting.MicBreakpointValid(micR.value) then DiskPlotting.MicBreakpointMessage
    else if !DiskPlotting.DiskCutoffValid(diskS.value) then DiskPlotting.DiskCutoffMessage
    else if !DiskPlotting.DiskCutoffValid(diskR.value) then DiskPlotting.DiskCutoffMessage
    else "0"
  }

  /** On four numbers the two applications' checks give the same answer. */
  lemma ChecksAgreeOnNumbers(micS: Entry, micR: Entry, diskS: Entry, diskR: Entry)
    requires micS.Numeric? && micR.Numeric? && diskS.Numeric? && diskR.Numeric?
    ensures DiskPlotting.CheckCutoffs(micS, micR, diskS, diskR) == Returned(CheckCutoffs(micS, micR, diskS, diskR))
  {
  }

  /** They differ once a value does not parse: this check converts all four
      first, the newer one checks each MIC range before it looks at a disk
      cutoff. */
  lemma ChecksDifferOnParseOrder()
    ensures CheckCutoffs(Numeric(0.01), Numeric(16.0), NonNumeric, Numeric(12.0)) == DiskPlotting.NonNumericCutoffMessage
    ensures DiskPlotting.CheckCutoffs(Numeric(0.01), Numeric(16.0), NonNumeric, Numeric(12.0))
            == Returned(DiskPlotting.MicBreakpointMessage)
  {
  }

  // ---------------------------------------------------------------------------
  // Rounding the MIC-vs-MIC cutoffs for the cutoff lines

  /** v lies strictly between two neighbouring bins. */
  predicate StrictlyInside(bins: seq<real>, v: real)
    requires |bins| > 0
  {
    bins[0] < v < bins[|bins| - 1] && v !in bins
  }

  /** r is v rounded up to the least bin above it when v lies strictly
      between two bins, and v itself otherwise. */
  predicate RoundedUp(bins: seq<real>, v: real, r: real)
    requires |bins| > 0
  {
    (StrictlyInside(bins, v) ==>
       r in bins && v < r && forall j :: 0 <= j < |bins| && v < bins[j] ==> r <= bins[j])
    && (!StrictlyInside(bins, v) ==> r == v)
  }

  /** The loop of gen_plot over the fifteen standard values: any pass i with
      bins[i-1] < v < bins[i] sets the rounded value to bins[i]; the original
      S and R are tested, each on its own. */
  method RoundCutoffs(cutoffS: real, cutoffR: real) returns (roundedS: real, roundedR: real)
    ensures RoundedUp(MicBins15, cutoffS, roundedS)
    ensures RoundedUp(MicBins15, cutoffR, roundedR)
  {
    BinsIncreasing();
    roundedS := RoundUpLoop(MicBins15, cutoffS);
    roundedR := RoundUpLoop(MicBins15, cutoffR);
  }

  /** The pass over the bins for one cutoff, over any increasing list. */
  method RoundUpLoop(xbins: seq<real>, cutoff: real) returns (rounded: real)
    requires Increasing(xbins) && |xbins| > 0
    ensures RoundedUp(xbins, cutoff, rounded)
  {
    ghost var k := FirstAtLeast(xbins, cutoff);
    ghost var fires := 0 < k < |xbins| && xbins[k] != cutoff;
    rounded := cutoff;
    for i := 1 to |xbins|
      invariant rounded == if fires && k < i then xbins[k] else cutoff
    {
      if cutoff > xbins[i - 1] && cutoff < xbins[i] {
        LocateAtLeast(xbins, cutoff, i);
        rounded := xbins[i];
      }
    }
    FiresMeaning(xbins, cutoff);
  }

  /** The bin the loop picks, and when it picks one. */
  lemma FiresMeaning(bins: seq<real>, v: real)
    requires Increasing(bins) && |bins| > 0
    ensures var k := FirstAtLeast(bins, v);
      ((0 < k < |bins| && bins[k] != v) <==> StrictlyInside(bins, v))
      && (0 < k < |bins| && bins[k] != v ==>
            v < bins[k] && forall j :: 0 <= j < |bins| && v < bins[j] ==> bins[k] <= bins[j])
  {
    var k := FirstAtLeast(bins, v);
    var last := |bins| - 1;
    if 0 < k < |bins| && bins[k] != v {
      assert bins[0] < v < bins[k] <= bins[last];
      forall j | 0 <= j < |bins|
        ensures bins[j] != v
        ensures v < bins[j] ==> bins[k] <= bins[j]
      {
        if j >= k {
          assert bins[k] <= bins[j];
        }
      }
    }
    if StrictlyInside(bins, v) {
      assert k != 0 by {
        assert bins[0] < v;
      }
      assert k < |bins| by {
        assert v < bins[last];
      }
      assert bins[k] in bins;
    }
  }

  // ---------------------------------------------------------------------------
  // generate_celltext

  const Labels: seq<string> := ["Susceptible", "Intermediate", "Resistant"]

  /** The three rows of the confusion matrix, in order, and the category
      labels of rows and columns. */
  method GenerateCelltext(app: Masher.DiskMasher) returns (celltext: seq<seq<int>>, labels: seq<string>)
    requires app.confusionMatrix.Length0 == 3 && app.confusionMatrix.Length1 == 3
    ensures labels == Labels
    ensures |celltext| == 3
    ensures forall i :: 0 <= i < 3 ==> |celltext[i]| == 3
    ensures forall i, j :: 0 <= i < 3 && 0 <= j < 3 ==> celltext[i][j] == app.confusionMatrix[i, j]
  {
    var cm := app.confusionMatrix;
    labels := ["Susceptible", "Intermediate", "Resistant"];
    celltext := [];
    for i := 0 to 3
      invariant |celltext| == i
      invariant forall r :: 0 <= r < i ==> |celltext[r]| == 3
      invariant forall r, j :: 0 <= r < i && 0 <= j < 3 ==> celltext[r][j] == cm[r, j]
    {
      var row := [cm[i, 0], cm[i, 1], cm[i, 2]];
      celltext := celltext + [row];
    }
  }
}
