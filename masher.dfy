/** The older Disk Masher application: the state of its main window as the
    modelled functions use it (scripts/main.py) and the functions of
    DISKMASHER/modeler.py apart from the classifier fits. Its error tables are
    a 3x3 confusion matrix (rows: actual, columns: predicted; 0 = S, 2 = R)
    and three error counts. */
module Masher {
  import opened Common
  import opened ModelCore
  import opened ModelObject

  /** A loaded data frame: the MIC column and the disk (or second MIC)
      column as float() sees their entries, and the disk column as pandas
      holds it (numbers, or text throughout when float() refuses an entry),
      which is what the export writes. */
  datatype Columns = Columns(mics: seq<Entry>, disks: seq<Entry>, diskCells: seq<Held>)

  predicate HeldAs(col: seq<Entry>, cells: seq<Held>) {
    |cells| == |col|
    && (AllNumeric(col) ==> forall i :: 0 <= i < |col| ==> cells[i] == Num(col[i].value))
    && (!AllNumeric(col) ==> forall i :: 0 <= i < |col| ==> cells[i].Text?)
  }

  type Frame = f: Columns | |f.mics| == |f.disks| && HeldAs(f.disks, f.diskCells) witness Columns([], [], [])

  datatype MasherErrors = MasherErrors(veryMajor: nat, major: nat, minor: nat)

  class DiskMasher {
    var currentDataset: Frame
    var miccutoffS: Entry
    var miccutoffR: Entry
    var diskcutoffS: Entry
    var diskcutoffR: Entry
    var useUserDefinedDiskCutoffs: bool
    var isMicVsMic: bool
    var confusionMatrix: array2<int>
    var errorCounts: MasherErrors
    /** The threshold optimiser used by scripts/modeler.py's fit_data. */
    var engine: Mgm

    constructor ()
      ensures currentDataset == Columns([], [], [])
      ensures miccutoffS == Numeric(4.0) && miccutoffR == Numeric(16.0)
      ensures diskcutoffS == Numeric(32.0) && diskcutoffR == Numeric(12.0)
      ensures !useUserDefinedDiskCutoffs && !isMicVsMic
      ensures fresh(confusionMatrix) && confusionMatrix.Length0 == 3 && confusionMatrix.Length1 == 3
      ensures forall a, p :: 0 <= a < 3 && 0 <= p < 3 ==> confusionMatrix[a, p] == 0
      ensures errorCounts == MasherErrors(0, 0, 0)
      ensures fresh(engine)
    {
      currentDataset := Columns([], [], []);
      miccutoffS, miccutoffR := Numeric(4.0), Numeric(16.0);
      diskcutoffS, diskcutoffR := Numeric(32.0), Numeric(12.0);
      useUserDefinedDiskCutoffs, isMicVsMic := false, false;
      confusionMatrix := new int[3, 3]((_, _) => 0);
      errorCounts := MasherErrors(0, 0, 0);
      engine := new Mgm();
    }
  }

  // ---------------------------------------------------------------------------
  // determine_data_type (DISKMASHER variant)

  /** The detector's verdict on the disk column: non-numeric entries and
      negative values are reported as errors (with kind 'disk'), values below
      1 or above 60 mean MIC data, and otherwise MIC data needs strictly more
      than 90% of the values among the fifteen standard MIC values. np.min of
      an empty column raises. */
  function LegacyDataType(col: seq<Entry>): Outcome<Detection> {
    if !AllNumeric(col) then Returned(Detection(DiskData, NonNumericColumnMessage))
    else if |col| == 0 then Raised("ValueError")
    else
      var x := Values(col);
      if SeqMin(x) < 0.0 then Returned(Detection(DiskData, NegativeColumnMessage))
      else if SeqMin(x) < 1.0 || SeqMax(x) > 60.0 then Returned(Detection(MicData, "0"))
      else if MicValueCount(x, MicBins15) as real > 0.9 * |x| as real then Returned(Detection(MicData, "0"))
      else Returned(Detection(DiskData, "0"))
  }

  method DetermineDataType(col: seq<Entry>) returns (o: Outcome<Detection>)
    ensures o == LegacyDataType(col)
  {
    if !AllNumeric(col) {
      return Returned(Detection(DiskData, NonNumericColumnMessage));
    }
    var x := Values(col);
    if |x| == 0 {
      return Raised("ValueError");
    }
    if SeqMin(x) < 0.0 {
      return Returned(Detection(DiskData, NegativeColumnMessage));
    }
    if SeqMin(x) < 1.0 || SeqMax(x) > 60.0 {
      return Returned(Detection(MicData, "0"));
    }
    var likelyMicValues := CountMicValues(x, MicBins15);
    if likelyMicValues as real > 0.9 * |x| as real {
      return Returned(Detection(MicData, "0"));
    }
    return Returned(Detection(DiskData, "0"));
  }

  /** An error message always comes with kind 'disk'; a MIC verdict always
      carries '0'; only the empty column raises. */
  lemma LegacyDetectionCodes(col: seq<Entry>)
    ensures LegacyDataType(col).Raised? <==> AllNumeric(col) && |col| == 0
    ensures LegacyDataType(col).Returned? && LegacyDataType(col).value.code != "0" ==>
      LegacyDataType(col).value.kind == DiskData
      && LegacyDataType(col).value.code in {NonNumericColumnMessage, NegativeColumnMessage}
    ensures LegacyDataType(col).Returned? && LegacyDataType(col).value.kind == MicData ==>
      LegacyDataType(col).value.code == "0"
  {
  }

  /** A non-empty column of standard MIC values is recognised as MIC data. */
  lemma LegacyStandardValuesAreMic(col: seq<Entry>)
    requires AllNumeric(col) && |col| > 0
    requires forall i :: 0 <= i < |col| ==> col[i].value in MicBins15
    ensures LegacyDataType(col) == Returned(Detection(MicData, "0"))
  {
    var x := Values(col);
    assert forall i :: 0 <= i < |x| ==> x[i] in MicBins15;
    AllMicValuesCount(x, MicBins15);
    assert SeqMin(x) >= 0.0 by {
      BinsIncreasing();
      InBinsAtLeastFirst(MicBins15, SeqMin(x));
    }
  }

  // ---------------------------------------------------------------------------
  // process_traindata (DISKMASHER variant)

  /** The two binary training labels of one MIC: susceptible vs all, and
      resistant vs all. */
  function SplitLabel(mic: real, r: real, s: real): (l: (int, int))
    ensures l.0 == 1 <==> mic < s
    ensures l.1 == 1 <==> mic >= s && mic >= r
    ensures l != (1, 1) && 0 <= l.0 <= 1 && 0 <= l.1 <= 1
  {
    if mic >= s && mic < r then (0, 0)
    else if mic < s then (1, 0)
    else (0, 1)
  }

  datatype Training = Training(x: seq<Entry>, ysuscep: seq<int>, yresist: seq<int>)

  /** process_traindata: float() of each MIC (the first one that fails
      raises), then one label pair per row; x is the disk column. */
  method LegacyProcessTraindata(mics: seq<Entry>, disks: seq<Entry>, r: real, s: real)
    returns (o: Outcome<Training>)
    ensures o.Raised? <==> !AllNumeric(mics)
    ensures o.Raised? ==> o.exception == "ValueError"
    ensures o.Returned? ==>
      o.value.x == disks && |o.value.ysuscep| == |mics| && |o.value.yresist| == |mics|
      && forall i :: 0 <= i < |mics| ==>
           (o.value.ysuscep[i], o.value.yresist[i]) == SplitLabel(mics[i].value, r, s)
  {
    var ysuscep, yresist := [], [];
    for i := 0 to |mics|
      invariant |ysuscep| == i && |yresist| == i
      invariant forall j :: 0 <= j < i ==> mics[j].Numeric?
      invariant forall j :: 0 <= j < i ==> (ysuscep[j], yresist[j]) == SplitLabel(mics[j].value, r, s)
    {
      if mics[i].NonNumeric? {
        return Raised("ValueError");
      }
      var yreal := mics[i].value;
      if yreal >= s && yreal < r {
        ysuscep, yresist := ysuscep + [0], yresist + [0];
      } else if yreal < s {
        ysuscep, yresist := ysuscep + [1], yresist + [0];
      } else if yreal >= r {
        ysuscep, yresist := ysuscep + [0], yresist + [1];
      }
    }
    return Returned(Training(disks, ysuscep, yresist));
  }

  // ---------------------------------------------------------------------------
  // The guard part of fit_data (DISKMASHER variant)

  const LegacyDegenerateMessage :=
    "You are trying to fit data that either does not contain any resistant strains or does not contain any susceptible strains "
    + "(i.e. there are only resistant + intermediate or resistant + susceptible in this dataset). The data will be plotted and "
    + "error rates calculated but auto-fitting (i.e. determination of disk cutoffs) cannot be conducted. You could try using "
    + "manual cutoff selection for this dataset."

  /** np.unique(y): the distinct values of a label array. */
  function Distinct(y: seq<int>): set<int> {
    set i | 0 <= i < |y| :: y[i]
  }

  predicate SingleValued(y: seq<int>) {
    |y| > 0 && forall i :: 0 <= i < |y| ==> y[i] == y[0]
  }

  /** np.unique(y).shape[0] == 1 says exactly that y is non-empty and constant. */
  lemma OneDistinctValue(y: seq<int>)
    ensures |Distinct(y)| == 1 <==> SingleValued(y)
  {
    if SingleValued(y) {
      assert Distinct(y) == {y[0]};
    }
    if |Distinct(y)| == 1 {
      var d := Distinct(y);
      assert y[0] in d;
      assert |d - {y[0]}| == 0;
      forall i | 0 <= i < |y| ensures y[i] == y[0] {
        assert y[i] in d;
        assert y[i] !in d - {y[0]};
      }
    }
  }

  /** Where the guard leaves fit_data: with a message, or carrying the
      training data on to the classifier fits. */
  datatype Guard = Stop(message: string) | Proceed(training: Training)

  /** Lines 42-65 of fit_data: parse the two MIC cutoffs, derive the labels
      (a parse failure in the MICs is reported), and refuse a label vector
      holding a single distinct value. */
  method FitDataGuard(app: DiskMasher) returns (g: Guard)
    ensures !(app.miccutoffR.Numeric? && app.miccutoffS.Numeric?) ==> g == Stop(CutoffMessage)
    ensures app.miccutoffR.Numeric? && app.miccutoffS.Numeric? && !AllNumeric(app.currentDataset.mics) ==>
      g == Stop(ProcessErrorMessage)
    ensures app.miccutoffR.Numeric? && app.miccutoffS.Numeric? && AllNumeric(app.currentDataset.mics) ==>
      var mics := app.currentDataset.mics;
      var r, s := app.miccutoffR.value, app.miccutoffS.value;
      (g.Stop? ==> g == Stop(LegacyDegenerateMessage))
      && (g.Proceed? ==>
            g.training.x == app.currentDataset.disks
            && |g.training.ysuscep| == |mics| && |g.training.yresist| == |mics|
            && (forall i :: 0 <= i < |mics| ==>
                  (g.training.ysuscep[i], g.training.yresist[i]) == SplitLabel(mics[i].value, r, s))
            && !SingleValued(g.training.ysuscep) && !SingleValued(g.training.yresist))
      && (g == Stop(LegacyDegenerateMessage) <==>
            |mics| > 0
            && ((forall i :: 0 <= i < |mics| ==> mics[i].value < s)
                || (forall i :: 0 <= i < |mics| ==> mics[i].value >= s)
                || (forall i :: 0 <= i < |mics| ==> mics[i].value >= s && mics[i].value >= r)
                || (forall i :: 0 <= i < |mics| ==> mics[i].value < s || mics[i].value < r)))
  {
    if !(app.miccutoffR.Numeric? && app.miccutoffS.Numeric?) {
      return Stop(CutoffMessage);
    }
    var miccutoffR := app.miccutoffR.value;
    var miccutoffS := app.miccutoffS.value;
    var o := LegacyProcessTraindata(app.currentDataset.mics, app.currentDataset.disks, miccutoffR, miccutoffS);
    if o.Raised? {
      return Stop(ProcessErrorMessage);
    }
    var t := o.value;
    OneDistinctValue(t.ysuscep);
    OneDistinctValue(t.yresist);
    SingleValuedMeaning(app.currentDataset.mics, t, miccutoffR, miccutoffS);
    if |Distinct(t.ysuscep)| == 1 || |Distinct(t.yresist)| == 1 {
      return Stop(LegacyDegenerateMessage);
    }
    return Proceed(t);
  }

  /** A label vector is constant exactly when every MIC falls on the same
      side of the breakpoint it separates. */
  lemma SingleValuedMeaning(mics: seq<Entry>, t: Training, r: real, s: real)
    requires AllNumeric(mics) && |t.ysuscep| == |mics| && |t.yresist| == |mics|
    requires forall i :: 0 <= i < |mics| ==> (t.ysuscep[i], t.yresist[i]) == SplitLabel(mics[i].value, r, s)
    ensures SingleValued(t.ysuscep) <==>
      |mics| > 0 && ((forall i :: 0 <= i < |mics| ==> mics[i].value < s)
                     || (forall i :: 0 <= i < |mics| ==> mics[i].value >= s))
    ensures SingleValued(t.yresist) <==>
      |mics| > 0 && ((forall i :: 0 <= i < |mics| ==> mics[i].value >= s && mics[i].value >= r)
                     || (forall i :: 0 <= i < |mics| ==> mics[i].value < s || mics[i].value < r))
  {
    if |mics| > 0 {
      assert t.ysuscep[0] == 1 <==> mics[0].value < s;
      assert t.yresist[0] == 1 <==> mics[0].value >= s && mics[0].value >= r;
    }
  }

  // ---------------------------------------------------------------------------
  // update_error_tables (DISKMASHER variant)

  /** Actual category: strictly below the S breakpoint is susceptible. */
  function LegacyActual(mic: real, c: Cutoffs): Category {
    if mic < c.yS then 0 else if mic < c.yR then 1 else 2
  }

  /** Predicted category from the disk zone, or from the second MIC. */
  function LegacyPredicted(x: real, c: Cutoffs, t: DataType): Category {
    match t
    case DiskData => if x > c.xS then 0 else if x >= c.xR then 1 else 2
    case MicData => if x >= c.xR then 2 else if x >= c.xS then 1 else 0
  }

  /** The number of rows with actual category a and predicted category p. */
  function CellCount(mics: seq<real>, xs: seq<real>, c: Cutoffs, t: DataType, a: int, p: int): (n: nat)
    requires |mics| == |xs|
    ensures n <= |mics|
  {
    if |mics| == 0 then 0
    else
      var k := |mics| - 1;
      CellCount(mics[..k], xs[..k], c, t, a, p)
      + (if LegacyActual(mics[k], c) == a && LegacyPredicted(xs[k], c, t) == p then 1 else 0)
  }

  function Bump(e: MasherErrors, kind: ErrorKind): MasherErrors {
    match kind
    case NoError => e
    case VeryMajor => e.(veryMajor := e.veryMajor + 1)
    case Major => e.(major := e.major + 1)
    case Minor => e.(minor := e.minor + 1)
  }

  /** The three error counts after the rows of mics and xs. */
  function LegacyErrors(mics: seq<real>, xs: seq<real>, c: Cutoffs, t: DataType): MasherErrors
    requires |mics| == |xs|
  {
    if |mics| == 0 then MasherErrors(0, 0, 0)
    else
      var k := |mics| - 1;
      Bump(LegacyErrors(mics[..k], xs[..k], c, t),
           CheckIsError(LegacyPredicted(xs[k], c, t), LegacyActual(mics[k], c)))
  }

  /** Each cell of the matrix counts the rows before n with that actual and
      that predicted category. */
  ghost predicate MatrixCounts(cm: array2<int>, mics: seq<real>, xs: seq<real>, n: nat, c: Cutoffs, t: DataType)
    reads cm
    requires n <= |mics| == |xs| && cm.Length0 == 3 && cm.Length1 == 3
  {
    forall a, p :: 0 <= a < 3 && 0 <= p < 3 ==> cm[a, p] == CellCount(mics[..n], xs[..n], c, t, a, p)
  }

  /** Row i goes into the cell of its actual and predicted category. */
  method AddToMatrix(cm: array2<int>, mics: seq<real>, xs: seq<real>, i: nat, c: Cutoffs, t: DataType)
    requires i < |mics| == |xs| && cm.Length0 == 3 && cm.Length1 == 3
    requires MatrixCounts(cm, mics, xs, i, c, t)
    modifies cm
    ensures MatrixCounts(cm, mics, xs, i + 1, c, t)
  {
    assert mics[..i + 1][..i] == mics[..i] && xs[..i + 1][..i] == xs[..i];
    var actual := LegacyActual(mics[i], c);
    var predicted := LegacyPredicted(xs[i], c, t);
    cm[actual, predicted] := cm[actual, predicted] + 1;
  }

  /** The per-row loop: a fresh zero matrix gets one increment per row, and
      each mismatch increments one error count. */
  method Tabulate(mics: seq<real>, xs: seq<real>, c: Cutoffs, t: DataType)
    returns (cm: array2<int>, e: MasherErrors)
    requires |mics| == |xs|
    ensures fresh(cm) && cm.Length0 == 3 && cm.Length1 == 3
    ensures forall a, p :: 0 <= a < 3 && 0 <= p < 3 ==> cm[a, p] == CellCount(mics, xs, c, t, a, p)
    ensures e == LegacyErrors(mics, xs, c, t)
  {
    cm := new int[3, 3]((_, _) => 0);
    e := MasherErrors(0, 0, 0);
    for i := 0 to |mics|
      invariant cm.Length0 == 3 && cm.Length1 == 3
      invariant MatrixCounts(cm, mics, xs, i, c, t)
      invariant e == LegacyErrors(mics[..i], xs[..i], c, t)
    {
      assert mics[..i + 1][..i] == mics[..i] && xs[..i + 1][..i] == xs[..i];
      var actual := LegacyActual(mics[i], c);
      var predicted := LegacyPredicted(xs[i], c, t);
      AddToMatrix(cm, mics, xs, i, c, t);
      if predicted != actual {
        if actual == 1 || predicted == 1 {
          e := e.(minor := e.minor + 1);
        } else if actual == 2 && predicted == 0 {
          e := e.(veryMajor := e.veryMajor + 1);
        } else if actual == 0 && predicted == 2 {
          e := e.(major := e.major + 1);
        }
      }
    }
    assert mics[..|mics|] == mics && xs[..|xs|] == xs;
  }

  /** update_error_tables: float() of the four cutoffs (a failure raises
      before anything changes), then a new confusion matrix and new error
      counts built from every row. pandas keeps a column holding any entry
      float() refuses as text, so then the comparison of the first row raises,
      after the matrix and the counts have been zeroed. */
  method UpdateErrorTables(app: DiskMasher, dataType: DataType) returns (o: Outcome<()>)
    modifies app
    ensures app.currentDataset == old(app.currentDataset) && app.engine == old(app.engine)
    ensures app.miccutoffS == old(app.miccutoffS) && app.miccutoffR == old(app.miccutoffR)
    ensures app.diskcutoffS == old(app.diskcutoffS) && app.diskcutoffR == old(app.diskcutoffR)
    ensures app.useUserDefinedDiskCutoffs == old(app.useUserDefinedDiskCutoffs) && app.isMicVsMic == old(app.isMicVsMic)
    ensures !(app.miccutoffR.Numeric? && app.miccutoffS.Numeric? && app.diskcutoffR.Numeric? && app.diskcutoffS.Numeric?) ==>
      o == Raised("ValueError") && unchanged(app)
    ensures app.miccutoffR.Numeric? && app.miccutoffS.Numeric? && app.diskcutoffR.Numeric? && app.diskcutoffS.Numeric?
            && !(AllNumeric(app.currentDataset.mics) && AllNumeric(app.currentDataset.disks)) ==>
      o == Raised("TypeError") && fresh(app.confusionMatrix)
      && app.confusionMatrix.Length0 == 3 && app.confusionMatrix.Length1 == 3
      && (forall a, p :: 0 <= a < 3 && 0 <= p < 3 ==> app.confusionMatrix[a, p] == 0)
      && app.errorCounts == MasherErrors(0, 0, 0)
    ensures app.miccutoffR.Numeric? && app.miccutoffS.Numeric? && app.diskcutoffR.Numeric? && app.diskcutoffS.Numeric?
            && AllNumeric(app.currentDataset.mics) && AllNumeric(app.currentDataset.disks) ==>
      var c := Cutoffs(app.miccutoffS.value, app.miccutoffR.value, app.diskcutoffS.value, app.diskcutoffR.value);
      var mics, xs := Values(app.currentDataset.mics), Values(app.currentDataset.disks);
      o == Returned(()) && fresh(app.confusionMatrix)
      && app.confusionMatrix.Length0 == 3 && app.confusionMatrix.Length1 == 3
      && (forall a, p :: 0 <= a < 3 && 0 <= p < 3 ==>
            app.confusionMatrix[a, p] == CellCount(mics, xs, c, dataType, a, p))
      && app.errorCounts == LegacyErrors(mics, xs, c, dataType)
  {
    if !(app.miccutoffR.Numeric? && app.miccutoffS.Numeric? && app.diskcutoffR.Numeric? && app.diskcutoffS.Numeric?) {
      return Raised("ValueError");
    }
    if !(AllNumeric(app.currentDataset.mics) && AllNumeric(app.currentDataset.disks)) {
      app.errorCounts := MasherErrors(0, 0, 0);
      app.confusionMatrix := new int[3, 3]((_, _) => 0);
      return Raised("TypeError");
    }
    var c := Cutoffs(app.miccutoffS.value, app.miccutoffR.value, app.diskcutoffS.value, app.diskcutoffR.value);
    var cm, e := Tabulate(Values(app.currentDataset.mics), Values(app.currentDataset.disks), c, dataType);
    app.errorCounts := e;
    app.confusionMatrix := cm;
    return Returned(());
  }

  // ---------------------------------------------------------------------------
  // Properties of the tables

  function MatrixTotal(mics: seq<real>, xs: seq<real>, c: Cutoffs, t: DataType): nat
    requires |mics| == |xs|
  {
    CellCount(mics, xs, c, t, 0, 0) + CellCount(mics, xs, c, t, 0, 1) + CellCount(mics, xs, c, t, 0, 2)
    + CellCount(mics, xs, c, t, 1, 0) + CellCount(mics, xs, c, t, 1, 1) + CellCount(mics, xs, c, t, 1, 2)
    + CellCount(mics, xs, c, t, 2, 0) + CellCount(mics, xs, c, t, 2, 1) + CellCount(mics, xs, c, t, 2, 2)
  }

  /** Exactly one cell is incremented per row, so the matrix sums to the
      number of rows. */
  lemma {:induction false} MatrixCountsEveryRow(mics: seq<real>, xs: seq<real>, c: Cutoffs, t: DataType)
    requires |mics| == |xs|
    ensures MatrixTotal(mics, xs, c, t) == |mics|
  {
    if |mics| > 0 {
      var k := |mics| - 1;
      MatrixCountsEveryRow(mics[..k], xs[..k], c, t);
    }
  }

  /** The error counts read off the confusion matrix: very major errors are
      actual R predicted S, major errors actual S predicted R, and minor
      errors the four cells next to the diagonal. */
  lemma {:induction false} ErrorsFromMatrix(mics: seq<real>, xs: seq<real>, c: Cutoffs, t: DataType)
    requires |mics| == |xs|
    ensures LegacyErrors(mics, xs, c, t).veryMajor == CellCount(mics, xs, c, t, 2, 0)
    ensures LegacyErrors(mics, xs, c, t).major == CellCount(mics, xs, c, t, 0, 2)
    ensures LegacyErrors(mics, xs, c, t).minor ==
      CellCount(mics, xs, c, t, 0, 1) + CellCount(mics, xs, c, t, 1, 0)
      + CellCount(mics, xs, c, t, 1, 2) + CellCount(mics, xs, c, t, 2, 1)
  {
    if |mics| > 0 {
      var k := |mics| - 1;
      ErrorsFromMatrix(mics[..k], xs[..k], c, t);
    }
  }

  /** The two variants disagree on a MIC equal to the S breakpoint: this one
      calls it intermediate where the model object calls it susceptible. */
  lemma SusceptibleBoundaryDiffers(c: Cutoffs)
    requires c.yS < c.yR
    ensures LegacyActual(c.yS, c) == 1 && ActualCategory(c.yS, c) == 0
    ensures forall mic :: mic != c.yS ==> LegacyActual(mic, c) == ActualCategory(mic, c)
  {
  }
}
