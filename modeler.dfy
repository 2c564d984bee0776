/** The Disk Masher application's fitting front end (scripts/modeler.py): the
    data-type detector, label derivation over the raw data frame, fit_data
    over the window state and the engine, and the MIC-bin snapping loop. */
module Modeler {
  import opened Common
  import opened ModelCore
  import DataProcessing
  import Masher

  // ---------------------------------------------------------------------------
  // determine_data_type

  /** The detector's verdict on the disk column: non-numeric entries and
      negative values are reported as errors (with kind 'disk'), values below
      0.12 or above 60 mean MIC data, and otherwise MIC data needs at least 90%
      of the values among the sixteen standard MIC values. np.min of an empty
      column raises. */
  function DataTypeOf(col: seq<Entry>): Outcome<Detection> {
    if !AllNumeric(col) then Returned(Detection(DiskData, NonNumericColumnMessage))
    else if |col| == 0 then Raised("ValueError")
    else
      var x := Values(col);
      if SeqMin(x) < 0.0 then Returned(Detection(DiskData, NegativeColumnMessage))
      else if SeqMin(x) < 0.12 || SeqMax(x) > 60.0 then Returned(Detection(MicData, "0"))
      else if MicValueCount(x, MicBins16) as real >= 0.9 * |x| as real then Returned(Detection(MicData, "0"))
      else Returned(Detection(DiskData, "0"))
  }

  method DetermineDataType(col: seq<Entry>) returns (o: Outcome<Detection>)
    ensures o == DataTypeOf(col)
  {
    if !AllNumeric(col) {
      return Returned(Detection(DiskData, NonNumericColumnMessage));
    }
    var x := Values(col);
    if |x| == 0 {
      return Raised("ValueError");
    }
    if SeqMin(x) < 0.0 {
      return Returned(Detection(DiskData, NegativeColumnMessage));
    }
    if SeqMin(x) < 0.12 || SeqMax(x) > 60.0 {
      return Returned(Detection(MicData, "0"));
    }
    var likelyMicValues := CountMicValues(x, MicBins16);
    if likelyMicValues as real >= 0.9 * |x| as real {
      return Returned(Detection(MicData, "0"));
    }
    return Returned(Detection(DiskData, "0"));
  }

  /** An error message always comes with kind 'disk'; a MIC verdict always
      carries '0'; only the empty column raises. */
  lemma DetectionCodes(col: seq<Entry>)
    ensures DataTypeOf(col).Raised? <==> AllNumeric(col) && |col| == 0
    ensures DataTypeOf(col).Returned? && DataTypeOf(col).value.code != "0" ==>
      DataTypeOf(col).value.kind == DiskData
      && DataTypeOf(col).value.code in {NonNumericColumnMessage, NegativeColumnMessage}
    ensures DataTypeOf(col).Returned? && DataTypeOf(col).value.kind == MicData ==>
      DataTypeOf(col).value.code == "0"
  {
  }

  /** A non-empty column of standard MIC values is recognised as MIC data. */
  lemma StandardValuesAreMic(col: seq<Entry>)
    requires AllNumeric(col) && |col| > 0
    requires forall i :: 0 <= i < |col| ==> col[i].value in MicBins16
    ensures DataTypeOf(col) == Returned(Detection(MicData, "0"))
  {
    var x := Values(col);
    assert forall i :: 0 <= i < |x| ==> x[i] in MicBins16;
    AllMicValuesCount(x, MicBins16);
    assert SeqMin(x) >= 0.0 by {
      BinsIncreasing();
      InBinsAtLeastFirst(MicBins16, SeqMin(x));
    }
  }

  /** The two detectors disagree on values between 0.12 and 1: this one goes
      on to count standard values, the DISKMASHER variant calls any value below
      1 a MIC at once. */
  lemma DetectorsDisagreeBelowOne()
    ensures DataTypeOf([Numeric(0.5), Numeric(10.0)]) == Returned(Detection(DiskData, "0"))
    ensures Masher.LegacyDataType([Numeric(0.5), Numeric(10.0)]) == Returned(Detection(MicData, "0"))
  {
    var x := Values([Numeric(0.5), Numeric(10.0)]);
    assert x == [0.5, 10.0];
    assert SeqMin(x) == 0.5 && SeqMax(x) == 10.0;
    assert x[..1] == [0.5];
    assert MicValueCount(x, MicBins16) == 1 by {
      assert 10.0 !in MicBins16;
      AllMicValuesCount(x[..1], MicBins16);
    }
  }

  // ---------------------------------------------------------------------------
  // process_traindata (labels 0 = R, 1 = I, 2 = S, as in data_processing)

  /** process_traindata: float() of each MIC (the first failure raises), one
      label per row; x is the raw disk column. */
  method ProcessTraindata(mics: seq<Entry>, disks: seq<Entry>, r: real, s: real)
    returns (o: Outcome<(seq<Entry>, seq<int>)>)
    ensures o.Raised? <==> !AllNumeric(mics)
    ensures o.Raised? ==> o.exception == "ValueError"
    ensures o.Returned? ==> o.value.0 == disks && o.value.1 == DataProcessing.Labels(Values(mics), r, s)
  {
    var y := [];
    for i := 0 to |mics|
      invariant |y| == i
      invariant forall j :: 0 <= j < i ==> mics[j].Numeric?
      invariant forall j :: 0 <= j < i ==> y[j] == DataProcessing.Label(mics[j].value, r, s)
    {
      if mics[i].NonNumeric? {
        return Raised("ValueError");
      }
      var yreal := mics[i].value;
      if yreal >= r {
        y := y + [0];
      } else if yreal <= s {
        y := y + [2];
      } else {
        y := y + [1];
      }
    }
    return Returned((disks, y));
  }

  // ---------------------------------------------------------------------------
  // fit_data

  const NotSupportedMessage :=
    "The MIC vs MIC data type is not currently supported, this feature is being added. Please check back later."

  /** Every field of the window but the two disk cutoffs is as before. */
  twostate predicate OnlyDiskCutoffsChange(app: Masher.DiskMasher)
    reads app
  {
    app.currentDataset == old(app.currentDataset) && app.engine == old(app.engine)
    && app.miccutoffS == old(app.miccutoffS) && app.miccutoffR == old(app.miccutoffR)
    && app.useUserDefinedDiskCutoffs == old(app.useUserDefinedDiskCutoffs) && app.isMicVsMic == old(app.isMicVsMic)
    && app.confusionMatrix == old(app.confusionMatrix) && app.errorCounts == old(app.errorCounts)
  }

  /** The path fit_data takes before it tests the labels. */
  predicate HasLabels(app: Masher.DiskMasher, dataType: DataType)
    reads app
  {
    dataType == DiskData && app.miccutoffR.Numeric? && app.miccutoffS.Numeric?
    && AllNumeric(app.currentDataset.mics) && |app.currentDataset.mics| > 0
  }

  /** The labels fit_data derives on that path. */
  function LabelsOf(app: Masher.DiskMasher): seq<int>
    reads app
    requires app.miccutoffR.Numeric? && app.miccutoffS.Numeric? && AllNumeric(app.currentDataset.mics)
  {
    DataProcessing.Labels(Values(app.currentDataset.mics), app.miccutoffR.value, app.miccutoffS.value)
  }

  /** fit_data: the guards in source order, then the optimiser on the disk
      column; its cutoffs become the window's disk cutoffs. */
  method FitData(app: Masher.DiskMasher, dataType: DataType) returns (o: Outcome<string>)
    modifies app, app.engine
    ensures OnlyDiskCutoffsChange(app)
    ensures dataType == MicData ==> o == Returned(NotSupportedMessage) && unchanged(app, app.engine)
    ensures dataType == DiskData && !(old(app.miccutoffR).Numeric? && old(app.miccutoffS).Numeric?) ==>
      o == Returned(CutoffMessage) && unchanged(app, app.engine)
    ensures (dataType == DiskData && old(app.miccutoffR).Numeric? && old(app.miccutoffS).Numeric?
             && !AllNumeric(old(app.currentDataset).mics)) ==>
      o == Returned(ProcessErrorMessage) && unchanged(app, app.engine)
    ensures (dataType == DiskData && old(app.miccutoffR).Numeric? && old(app.miccutoffS).Numeric?
             && AllNumeric(old(app.currentDataset).mics) && |old(app.currentDataset).mics| == 0) ==>
      o == Raised("ValueError") && unchanged(app, app.engine)
    ensures old(HasLabels(app, dataType)) ==>
      var y := old(LabelsOf(app));
      var disks := old(app.currentDataset).disks;
      (DataProcessing.Degenerate(y) ==>
         o == Returned(DataProcessing.DegenerateMessage) && unchanged(app, app.engine))
      && (!DataProcessing.Degenerate(y) && !AllNumeric(disks) ==>
            o == Raised("TypeError") && unchanged(app, app.engine))
      && (!DataProcessing.Degenerate(y) && AllNumeric(disks) ==>
            var fit := ChosenFit(Values(disks), y);
            app.engine.cutoffR == fit.cutoffR && app.engine.cutoffS == fit.cutoffS
            && app.diskcutoffR == Numeric(fit.cutoffR) && app.diskcutoffS == Numeric(fit.cutoffS)
            && o == Returned(DataProcessing.TieMessage(Ties(Values(disks), y))))
  {
    if dataType == MicData {
      return Returned(NotSupportedMessage);
    }
    if !(app.miccutoffR.Numeric? && app.miccutoffS.Numeric?) {
      return Returned(CutoffMessage);
    }
    var miccutoffR := app.miccutoffR.value;
    var miccutoffS := app.miccutoffS.value;
    var p := ProcessTraindata(app.currentDataset.mics, app.currentDataset.disks, miccutoffR, miccutoffS);
    if p.Raised? {
      return Returned(ProcessErrorMessage);
    }
    var (x, y) := p.value;
    if |y| == 0 {
      return Raised("ValueError");
    }
    o := FitLabelled(app, y);
  }

  /** The part of fit_data after the labels y: the degenerate-label test, the
      float conversion of the disk column, and the optimiser. */
  method FitLabelled(app: Masher.DiskMasher, y: seq<int>) returns (o: Outcome<string>)
    requires 0 < |y| == |app.currentDataset.disks|
    modifies app, app.engine
    ensures OnlyDiskCutoffsChange(app)
    ensures var disks := old(app.currentDataset).disks;
      (DataProcessing.Degenerate(y) ==>
         o == Returned(DataProcessing.DegenerateMessage) && unchanged(app, app.engine))
      && (!DataProcessing.Degenerate(y) && !AllNumeric(disks) ==>
            o == Raised("TypeError") && unchanged(app, app.engine))
      && (!DataProcessing.Degenerate(y) && AllNumeric(disks) ==>
            var fit := ChosenFit(Values(disks), y);
            app.engine.cutoffR == fit.cutoffR && app.engine.cutoffS == fit.cutoffS
            && app.diskcutoffR == Numeric(fit.cutoffR) && app.diskcutoffS == Numeric(fit.cutoffS)
            && o == Returned(DataProcessing.TieMessage(Ties(Values(disks), y))))
  {
    var x := app.currentDataset.disks;
    if DataProcessing.Degenerate(y) {
      return Returned(DataProcessing.DegenerateMessage);
    }
    if !AllNumeric(x) {
      return Raised("TypeError");
    }
    var msg := AdoptFit(app, Values(x), y);
    return Returned(msg);
  }

  /** The optimiser's run on numeric disks x: its cutoffs become the
      window's disk cutoffs, and the tied widths the message. */
  method AdoptFit(app: Masher.DiskMasher, x: seq<real>, y: seq<int>) returns (msg: string)
    requires 0 < |x| == |y|
    modifies app, app.engine
    ensures OnlyDiskCutoffsChange(app)
    ensures app.engine.cutoffR == ChosenFit(x, y).cutoffR && app.engine.cutoffS == ChosenFit(x, y).cutoffS
    ensures app.diskcutoffR == Numeric(ChosenFit(x, y).cutoffR) && app.diskcutoffS == Numeric(ChosenFit(x, y).cutoffS)
    ensures msg == DataProcessing.TieMessage(Ties(x, y))
  {
    var windowWidths := app.engine.FitDiskData(x, y);
    SetDiskCutoffs(app, app.engine.cutoffR, app.engine.cutoffS);
    msg := TieText(windowWidths);
  }

  /** The window takes the engine's cutoffs as its disk cutoffs. */
  method SetDiskCutoffs(app: Masher.DiskMasher, cutoffR: real, cutoffS: real)
    modifies app
    ensures OnlyDiskCutoffsChange(app)
    ensures app.diskcutoffR == Numeric(cutoffR) && app.diskcutoffS == Numeric(cutoffS)
  {
    app.diskcutoffR := Numeric(cutoffR);
    app.diskcutoffS := Numeric(cutoffS);
  }

  /** The returned text: '!' and the tied widths joined by ', ', or '0'. */
  method TieText(windowWidths: seq<string>) returns (msg: string)
    ensures msg == DataProcessing.TieMessage(windowWidths)
  {
    if |windowWidths| > 0 {
      msg := Join(", ", ["!"] + windowWidths);
    } else {
      msg := "0";
    }
  }

  // ---------------------------------------------------------------------------
  // The MIC-bin snapping loop of fit_data (lines 74-80)

  /** Snap fitted MIC cutoffs onto the sixteen standard values: R rounds up to
      the smallest standard value at or above it, S rounds down to the largest
      at or below it; values outside [0.016, 256] are left alone. */
  method SnapToMicBins(cutoffR: real, cutoffS: real) returns (r: real, s: real)
    ensures MicBins16[0] <= cutoffR <= MicBins16[15] ==>
      r in MicBins16 && cutoffR <= r
      && forall j :: 0 <= j < |MicBins16| && cutoffR <= MicBins16[j] ==> r <= MicBins16[j]
    ensures !(MicBins16[0] <= cutoffR <= MicBins16[15]) ==> r == cutoffR
    ensures MicBins16[0] <= cutoffS <= MicBins16[15] ==>
      s in MicBins16 && s <= cutoffS
      && forall j :: 0 <= j < |MicBins16| && MicBins16[j] <= cutoffS ==> MicBins16[j] <= s
    ensures !(MicBins16[0] <= cutoffS <= MicBins16[15]) ==> s == cutoffS
  {
    BinsIncreasing();
    r, s := SnapLoop(MicBins16, cutoffR, cutoffS);
  }

  /** The loop itself, over any increasing list of bins: pass i moves R in
      (bins[i-1], bins[i]] up to bins[i] and S in [bins[i-1], bins[i]) down to
      bins[i-1]. */
  method SnapLoop(xbins: seq<real>, cutoffR: real, cutoffS: real) returns (r: real, s: real)
    requires Increasing(xbins) && |xbins| > 0
    ensures xbins[0] <= cutoffR <= xbins[|xbins| - 1] ==>
      r in xbins && cutoffR <= r
      && forall j :: 0 <= j < |xbins| && cutoffR <= xbins[j] ==> r <= xbins[j]
    ensures !(xbins[0] <= cutoffR <= xbins[|xbins| - 1]) ==> r == cutoffR
    ensures xbins[0] <= cutoffS <= xbins[|xbins| - 1] ==>
      s in xbins && s <= cutoffS
      && forall j :: 0 <= j < |xbins| && xbins[j] <= cutoffS ==> xbins[j] <= s
    ensures !(xbins[0] <= cutoffS <= xbins[|xbins| - 1]) ==> s == cutoffS
  {
    ghost var kR, kS := FirstAtLeast(xbins, cutoffR), FirstAbove(xbins, cutoffS);
    r, s := cutoffR, cutoffS;
    for i := 1 to |xbins|
      invariant r == if 0 < kR < i then xbins[kR] else cutoffR
      invariant s == if 0 < kS < i then xbins[kS - 1] else cutoffS
    {
      SnapStep(xbins, i, cutoffR, cutoffS);
      if r > xbins[i - 1] && r <= xbins[i] {
        r := xbins[i];
      }
      if s >= xbins[i - 1] && s < xbins[i] {
        s := xbins[i - 1];
      }
    }
    RoundedUpMeaning(xbins, cutoffR, r);
    RoundedDownMeaning(xbins, cutoffS, s);
  }

  /** Pass i moves a cutoff exactly when i is the position the search
      finds; a cutoff placed earlier stays put. */
  lemma SnapStep(bins: seq<real>, i: nat, cutoffR: real, cutoffS: real)
    requires Increasing(bins) && 0 < i < |bins|
    ensures var k := FirstAtLeast(bins, cutoffR);
      (bins[i - 1] < cutoffR <= bins[i] <==> k == i) && (0 < k < i ==> bins[k] <= bins[i - 1])
    ensures var k := FirstAbove(bins, cutoffS);
      (bins[i - 1] <= cutoffS < bins[i] <==> k == i) && (0 < k < i ==> bins[k - 1] < bins[i - 1])
  {
    if bins[i - 1] < cutoffR <= bins[i] {
      LocateAtLeast(bins, cutoffR, i);
    }
    if bins[i - 1] <= cutoffS < bins[i] {
      LocateAbove(bins, cutoffS, i);
    }
  }

  /** What the loop leaves in R: the first bin at or above it when that is
      neither the first bin nor missing, so the least bin at or above it. */
  lemma RoundedUpMeaning(bins: seq<real>, v: real, r: real)
    requires Increasing(bins) && |bins| > 0
    requires var k := FirstAtLeast(bins, v); r == if 0 < k < |bins| then bins[k] else v
    ensures bins[0] <= v <= bins[|bins| - 1] ==>
      r in bins && v <= r && forall j :: 0 <= j < |bins| && v <= bins[j] ==> r <= bins[j]
    ensures !(bins[0] <= v <= bins[|bins| - 1]) ==> r == v
  {
    var k, last := FirstAtLeast(bins, v), |bins| - 1;
    if 0 < k < |bins| {
      assert bins[0] < v && bins[k] <= bins[last];
      LeastAtLeast(bins, v);
    } else if k == 0 && bins[0] <= v {
      assert forall j :: 0 <= j < |bins| ==> bins[0] <= bins[j];
    } else if k == |bins| {
      assert bins[last] < v;
    }
  }

  /** What the loop leaves in S: the bin before the first one above it when
      there is both, so the greatest bin at or below it. */
  lemma RoundedDownMeaning(bins: seq<real>, v: real, s: real)
    requires Increasing(bins) && |bins| > 0
    requires var k := FirstAbove(bins, v); s == if 0 < k < |bins| then bins[k - 1] else v
    ensures bins[0] <= v <= bins[|bins| - 1] ==>
      s in bins && s <= v && forall j :: 0 <= j < |bins| && bins[j] <= v ==> bins[j] <= s
    ensures !(bins[0] <= v <= bins[|bins| - 1]) ==> s == v
  {
    var k, last := FirstAbove(bins, v), |bins| - 1;
    if 0 < k < |bins| {
      assert bins[0] <= v < bins[k] <= bins[last];
      GreatestAtMost(bins, v);
    } else if k == |bins| && v <= bins[last] {
      assert forall j :: 0 <= j < |bins| ==> bins[j] <= bins[last];
    } else if k == 0 {
      assert v < bins[0];
    }
  }

  /** The first bin at or above v is the least such bin. */
  lemma LeastAtLeast(bins: seq<real>, v: real)
    requires Increasing(bins) && FirstAtLeast(bins, v) < |bins|
    ensures forall j :: 0 <= j < |bins| && v <= bins[j] ==> bins[FirstAtLeast(bins, v)] <= bins[j]
  {
  }

  /** The bin before the first one above v is the greatest bin at or below v. */
  lemma GreatestAtMost(bins: seq<real>, v: real)
    requires Increasing(bins) && 0 < FirstAbove(bins, v)
    ensures forall j :: 0 <= j < |bins| && bins[j] <= v ==> bins[j] <= bins[FirstAbove(bins, v) - 1]
  {
  }
}
