/** The model object of scripts/model_object.py: the S/I/R categories of a
    sample, the error taxonomy, and the error tables that update_error_tables
    rebuilds from the loaded dataset and the four cutoffs. Categories here are
    0 = susceptible, 1 = intermediate, 2 = resistant. */
module ModelObject {
  import opened Common
  import opened ModelCore

  type Category = c: int | 0 <= c <= 2

  datatype ErrorKind = NoError | VeryMajor | Major | Minor

  /** check_is_error: a mismatch involving the intermediate category is minor;
      predicting susceptible for a resistant strain is very major; predicting
      resistant for a susceptible strain is major. */
  function CheckIsError(predicted: Category, actual: Category): (e: ErrorKind)
    ensures e == NoError <==> predicted == actual
    ensures e == Minor <==> predicted != actual && (actual == 1 || predicted == 1)
    ensures e == VeryMajor <==> actual == 2 && predicted == 0
    ensures e == Major <==> actual == 0 && predicted == 2
  {
    if predicted != actual then
      if actual == 1 || predicted == 1 then Minor
      else if actual == 2 && predicted == 0 then VeryMajor
      else Major
    else NoError
  }

  /** One of the four error dictionaries: strains seen and errors of each kind. */
  datatype ErrorCounts = ErrorCounts(numStrains: nat, veryMajor: nat, major: nat, minor: nat)

  function Errors(e: ErrorCounts): nat {
    e.veryMajor + e.major + e.minor
  }

  /** `d[error_code] += 1` unless the code is 'no error'. */
  function Record(e: ErrorCounts, kind: ErrorKind): (r: ErrorCounts)
    ensures r.numStrains == e.numStrains
    ensures kind == NoError ==> r == e
    ensures kind != NoError ==> Errors(r) == Errors(e) + 1
    ensures r.veryMajor == e.veryMajor + (if kind == VeryMajor then 1 else 0)
    ensures r.major == e.major + (if kind == Major then 1 else 0)
    ensures r.minor == e.minor + (if kind == Minor then 1 else 0)
  {
    match kind
    case NoError => e
    case VeryMajor => e.(veryMajor := e.veryMajor + 1)
    case Major => e.(major := e.major + 1)
    case Minor => e.(minor := e.minor + 1)
  }

  /** The four dictionaries: the whole dataset and the three MIC bands. */
  datatype Tables = Tables(overall: ErrorCounts, plus2: ErrorCounts, plus1Minus1: ErrorCounts, minus2: ErrorCounts)

  const NoCounts := ErrorCounts(0, 0, 0, 0)

  /** What update_error_tables starts from: every count zero except the
      overall num_strains, which is the dataset size. */
  function Reset(n: nat): Tables {
    Tables(ErrorCounts(n, 0, 0, 0), NoCounts, NoCounts, NoCounts)
  }

  datatype Cutoffs = Cutoffs(yS: real, yR: real, xS: real, xR: real)

  /** The actual category from the reference MIC. */
  function ActualCategory(mic: real, c: Cutoffs): Category {
    if mic <= c.yS then 0 else if mic < c.yR then 1 else 2
  }

  /** The predicted category from a disk diameter (a larger zone means more
      susceptible). */
  function PredictedFromDisk(disk: real, c: Cutoffs): Category {
    if disk >= c.xS then 0 else if disk > c.xR then 1 else 2
  }

  /** The predicted category from an alternate MIC (a larger MIC means more
      resistant). */
  function PredictedFromMic(x: real, c: Cutoffs): Category {
    if x >= c.xR then 2 else if x > c.xS then 1 else 0
  }

  datatype Mode = DiskMode | MicVsMicMode

  function Predicted(x: real, c: Cutoffs, mode: Mode): Category {
    match mode
    case DiskMode => PredictedFromDisk(x, c)
    case MicVsMicMode => PredictedFromMic(x, c)
  }

  /** The MIC bands of the report: above R (">=I+2"), from S to R inclusive
      ("I+1 to I-1"), and below S ("<=I-2"). */
  datatype Band = IPlus2 | IPlus1Minus1 | IMinus2

  function BandOf(mic: real, c: Cutoffs): Band {
    if mic > c.yR then IPlus2
    else if mic <= c.yR && mic >= c.yS then IPlus1Minus1
    else IMinus2
  }

  /** The error of one sample. */
  function SampleError(mic: real, x: real, c: Cutoffs, mode: Mode): ErrorKind {
    CheckIsError(Predicted(x, c, mode), ActualCategory(mic, c))
  }

  /** One pass of the per-sample loop: the sample's band counts it and records
      its error, and the overall dictionary records the error. */
  function Step(t: Tables, mic: real, x: real, c: Cutoffs, mode: Mode): Tables {
    Count(t, BandOf(mic, c), SampleError(mic, x, c, mode))
  }

  /** Band b counts a sample with error e, and the overall dictionary records e. */
  function Count(t: Tables, b: Band, e: ErrorKind): Tables {
    var t' := match b
      case IPlus2 => t.(plus2 := Record(t.plus2.(numStrains := t.plus2.numStrains + 1), e))
      case IPlus1Minus1 => t.(plus1Minus1 := Record(t.plus1Minus1.(numStrains := t.plus1Minus1.numStrains + 1), e))
      case IMinus2 => t.(minus2 := Record(t.minus2.(numStrains := t.minus2.numStrains + 1), e));
    t'.(overall := Record(t.overall, e))
  }

  /** The tables after the loop has seen every sample of mics/xs in order. */
  function Tally(t: Tables, mics: seq<real>, xs: seq<real>, c: Cutoffs, mode: Mode): Tables
    requires |mics| == |xs|
  {
    if |mics| == 0 then t
    else
      var n := |mics| - 1;
      Step(Tally(t, mics[..n], xs[..n], c, mode), mics[n], xs[n], c, mode)
  }

  /** How many samples of mics/xs are mispredicted. */
  function WrongCount(mics: seq<real>, xs: seq<real>, c: Cutoffs, mode: Mode): nat
    requires |mics| == |xs|
  {
    if |mics| == 0 then 0
    else
      var n := |mics| - 1;
      WrongCount(mics[..n], xs[..n], c, mode) + (if SampleError(mics[n], xs[n], c, mode) != NoError then 1 else 0)
  }

  /** Whether the alternate MIC is within twofold of the reference MIC. */
  predicate WithinTwofold(mic: real, x: real) {
    x <= mic * 2.0 && x >= mic * 0.5
  }

  function TwofoldCount(mics: seq<real>, xs: seq<real>): nat
    requires |mics| == |xs|
  {
    if |mics| == 0 then 0
    else
      var n := |mics| - 1;
      TwofoldCount(mics[..n], xs[..n]) + (if WithinTwofold(mics[n], xs[n]) then 1 else 0)
  }

  /** Extending a prefix by one sample: the tally takes one more step, and
      each count adds that sample's contribution. */
  lemma PrefixStep(t: Tables, mics: seq<real>, xs: seq<real>, i: nat, c: Cutoffs, mode: Mode)
    requires i < |mics| == |xs|
    ensures Tally(t, mics[..i + 1], xs[..i + 1], c, mode) == Step(Tally(t, mics[..i], xs[..i], c, mode), mics[i], xs[i], c, mode)
    ensures WrongCount(mics[..i + 1], xs[..i + 1], c, mode)
            == WrongCount(mics[..i], xs[..i], c, mode) + (if SampleError(mics[i], xs[i], c, mode) != NoError then 1 else 0)
    ensures TwofoldCount(mics[..i + 1], xs[..i + 1]) == TwofoldCount(mics[..i], xs[..i]) + (if WithinTwofold(mics[i], xs[i]) then 1 else 0)
  {
    assert mics[..i + 1][..i] == mics[..i];
    assert xs[..i + 1][..i] == xs[..i];
  }

  /** How many MICs fall into band b. */
  function BandCount(mics: seq<real>, c: Cutoffs, b: Band): nat {
    if |mics| == 0 then 0
    else
      var n := |mics| - 1;
      BandCount(mics[..n], c, b) + (if BandOf(mics[n], c) == b then 1 else 0)
  }

  function EssentialAgreement(twofold: nat, n: nat): real
    requires n > 0
  {
    100.0 * twofold as real / n as real
  }

  function CategoricalAgreement(wrong: nat, n: nat): real
    requires n > 0
  {
    100.0 - 100.0 * wrong as real / n as real
  }

  // ---------------------------------------------------------------------------
  // The counting invariants

  function CountSum(t: Tables): nat {
    t.plus2.numStrains + t.plus1Minus1.numStrains + t.minus2.numStrains
  }

  /** The band dictionaries together hold what the overall one holds. */
  predicate Consistent(t: Tables) {
    t.overall.veryMajor == t.plus2.veryMajor + t.plus1Minus1.veryMajor + t.minus2.veryMajor
    && t.overall.major == t.plus2.major + t.plus1Minus1.major + t.minus2.major
    && t.overall.minor == t.plus2.minor + t.plus1Minus1.minor + t.minus2.minor
    && Errors(t.plus2) <= t.plus2.numStrains
    && Errors(t.plus1Minus1) <= t.plus1Minus1.numStrains
    && Errors(t.minus2) <= t.minus2.numStrains
  }

  /** What one pass of the loop does to the tables. */
  lemma StepFacts(t: Tables, mic: real, x: real, c: Cutoffs, mode: Mode)
    ensures var t' := Step(t, mic, x, c, mode);
      t'.overall.numStrains == t.overall.numStrains
      && CountSum(t') == CountSum(t) + 1
      && t'.plus2.numStrains == t.plus2.numStrains + (if BandOf(mic, c) == IPlus2 then 1 else 0)
      && t'.plus1Minus1.numStrains == t.plus1Minus1.numStrains + (if BandOf(mic, c) == IPlus1Minus1 then 1 else 0)
      && t'.minus2.numStrains == t.minus2.numStrains + (if BandOf(mic, c) == IMinus2 then 1 else 0)
      && (Consistent(t) ==> Consistent(t'))
      && Errors(t'.overall) == Errors(t.overall) + (if SampleError(mic, x, c, mode) != NoError then 1 else 0)
  {
    CountFacts(t, BandOf(mic, c), SampleError(mic, x, c, mode));
  }

  lemma CountFacts(t: Tables, b: Band, e: ErrorKind)
    ensures var t' := Count(t, b, e);
      t'.overall.numStrains == t.overall.numStrains
      && CountSum(t') == CountSum(t) + 1
      && t'.plus2.numStrains == t.plus2.numStrains + (if b == IPlus2 then 1 else 0)
      && t'.plus1Minus1.numStrains == t.plus1Minus1.numStrains + (if b == IPlus1Minus1 then 1 else 0)
      && t'.minus2.numStrains == t.minus2.numStrains + (if b == IMinus2 then 1 else 0)
      && (Consistent(t) ==> Consistent(t'))
      && Errors(t'.overall) == Errors(t.overall) + (if e != NoError then 1 else 0)
  {
  }

  /** Starting from the reset tables of a dataset of n samples, the loop keeps
      the overall num_strains at n and puts each sample in exactly one band:
      the band sizes add up to the samples seen, and each band holds the
      samples whose MIC lies in it. */
  lemma TallySizes(n: nat, mics: seq<real>, xs: seq<real>, c: Cutoffs, mode: Mode)
    requires |mics| == |xs|
    ensures var t := Tally(Reset(n), mics, xs, c, mode);
      t.overall.numStrains == n
      && CountSum(t) == |mics|
      && t.plus2.numStrains == BandCount(mics, c, IPlus2)
      && t.plus1Minus1.numStrains == BandCount(mics, c, IPlus1Minus1)
      && t.minus2.numStrains == BandCount(mics, c, IMinus2)
  {
    TallyTotals(n, mics, xs, c, mode);
    TallyBands(n, mics, xs, c, mode);
  }

  lemma {:induction false} TallyTotals(n: nat, mics: seq<real>, xs: seq<real>, c: Cutoffs, mode: Mode)
    requires |mics| == |xs|
    ensures var t := Tally(Reset(n), mics, xs, c, mode);
      t.overall.numStrains == n && CountSum(t) == |mics|
  {
    if |mics| > 0 {
      var k := |mics| - 1;
      var before := Tally(Reset(n), mics[..k], xs[..k], c, mode);
      TallyTotals(n, mics[..k], xs[..k], c, mode);
      assert Tally(Reset(n), mics, xs, c, mode) == Step(before, mics[k], xs[k], c, mode);
      StepFacts(before, mics[k], xs[k], c, mode);
    }
  }

  lemma {:induction false} TallyBands(n: nat, mics: seq<real>, xs: seq<real>, c: Cutoffs, mode: Mode)
    requires |mics| == |xs|
    ensures var t := Tally(Reset(n), mics, xs, c, mode);
      t.plus2.numStrains == BandCount(mics, c, IPlus2)
      && t.plus1Minus1.numStrains == BandCount(mics, c, IPlus1Minus1)
      && t.minus2.numStrains == BandCount(mics, c, IMinus2)
  {
    if |mics| > 0 {
      var k := |mics| - 1;
      var before := Tally(Reset(n), mics[..k], xs[..k], c, mode);
      TallyBands(n, mics[..k], xs[..k], c, mode);
      assert Tally(Reset(n), mics, xs, c, mode) == Step(before, mics[k], xs[k], c, mode);
      StepFacts(before, mics[k], xs[k], c, mode);
    }
  }

  /** Every overall error count is the sum of its three band counts, no band
      holds more errors than strains, and the overall dictionary records one
      error per mispredicted sample, so at most one per sample. */
  lemma TallyErrors(n: nat, mics: seq<real>, xs: seq<real>, c: Cutoffs, mode: Mode)
    requires |mics| == |xs|
    ensures var t := Tally(Reset(n), mics, xs, c, mode);
      Consistent(t)
      && Errors(t.overall) == WrongCount(mics, xs, c, mode)
      && Errors(t.overall) <= |mics|
  {
    TallyConsistent(n, mics, xs, c, mode);
    TallyWrong(n, mics, xs, c, mode);
    CountBounds(mics, xs, c, mode);
  }

  lemma {:induction false} TallyConsistent(n: nat, mics: seq<real>, xs: seq<real>, c: Cutoffs, mode: Mode)
    requires |mics| == |xs|
    ensures Consistent(Tally(Reset(n), mics, xs, c, mode))
  {
    if |mics| > 0 {
      var k := |mics| - 1;
      var before := Tally(Reset(n), mics[..k], xs[..k], c, mode);
      TallyConsistent(n, mics[..k], xs[..k], c, mode);
      assert Tally(Reset(n), mics, xs, c, mode) == Step(before, mics[k], xs[k], c, mode);
      StepFacts(before, mics[k], xs[k], c, mode);
    }
  }

  lemma {:induction false} TallyWrong(n: nat, mics: seq<real>, xs: seq<real>, c: Cutoffs, mode: Mode)
    requires |mics| == |xs|
    ensures Errors(Tally(Reset(n), mics, xs, c, mode).overall) == WrongCount(mics, xs, c, mode)
  {
    if |mics| > 0 {
      var k := |mics| - 1;
      var before := Tally(Reset(n), mics[..k], xs[..k], c, mode);
      TallyWrong(n, mics[..k], xs[..k], c, mode);
      assert Tally(Reset(n), mics, xs, c, mode) == Step(before, mics[k], xs[k], c, mode);
      StepFacts(before, mics[k], xs[k], c, mode);
    }
  }

  /** Each sample lands in exactly one band; above R the strain is resistant
      and below S susceptible, whatever the prediction. */
  lemma BandCategory(mic: real, c: Cutoffs)
    requires c.yS < c.yR
    ensures BandOf(mic, c) == IPlus2 ==> ActualCategory(mic, c) == 2
    ensures BandOf(mic, c) == IMinus2 ==> ActualCategory(mic, c) == 0
    ensures BandOf(mic, c) == IPlus1Minus1 <==> c.yS <= mic <= c.yR
  {
  }

  /** A very major error needs a resistant reference MIC (mic >= R) and a
      susceptible prediction; a major error a susceptible reference MIC
      (mic <= S) and a resistant prediction. */
  lemma ErrorConditions(mic: real, x: real, c: Cutoffs, mode: Mode)
    ensures SampleError(mic, x, c, mode) == VeryMajor ==>
      mic >= c.yR && mic > c.yS && Predicted(x, c, mode) == 0
    ensures SampleError(mic, x, c, mode) == Major ==> mic <= c.yS && Predicted(x, c, mode) == 2
    ensures mode == DiskMode && SampleError(mic, x, c, mode) == VeryMajor ==> x >= c.xS
    ensures mode == MicVsMicMode && SampleError(mic, x, c, mode) == VeryMajor ==> x <= c.xS && x < c.xR
  {
  }

  /** A larger MIC never gives a more susceptible actual category; a larger zone
      never gives a more resistant disk prediction; a larger alternate MIC never
      gives a more susceptible prediction. */
  lemma CategoriesMonotone(a: real, b: real, c: Cutoffs)
    requires a <= b
    ensures ActualCategory(a, c) <= ActualCategory(b, c)
    ensures PredictedFromDisk(a, c) >= PredictedFromDisk(b, c)
    ensures PredictedFromMic(a, c) <= PredictedFromMic(b, c)
  {
  }

  lemma {:induction false} CountBounds(mics: seq<real>, xs: seq<real>, c: Cutoffs, mode: Mode)
    requires |mics| == |xs|
    ensures WrongCount(mics, xs, c, mode) <= |mics|
    ensures TwofoldCount(mics, xs) <= |mics|
  {
    if |mics| > 0 {
      var k := |mics| - 1;
      CountBounds(mics[..k], xs[..k], c, mode);
    }
  }

  /** Both agreement figures are percentages: with n samples, at most n within
      twofold and at most n wrong, they lie in [0, 100]; categorical agreement
      is 100 exactly when no prediction is wrong. */
  lemma AgreementBounds(twofold: nat, wrong: nat, n: nat)
    requires n > 0 && twofold <= n && wrong <= n
    ensures 0.0 <= EssentialAgreement(twofold, n) <= 100.0
    ensures 0.0 <= CategoricalAgreement(wrong, n) <= 100.0
    ensures CategoricalAgreement(wrong, n) == 100.0 <==> wrong == 0
  {
    DivUnit(twofold as real, n as real);
    DivUnit(wrong as real, n as real);
    ScaleShare(twofold as real, n as real);
    ScaleShare(wrong as real, n as real);
  }

  lemma ScaleShare(a: real, n: real)
    requires n > 0.0
    ensures 100.0 * a / n == 100.0 * (a / n)
  {
  }

  // ---------------------------------------------------------------------------
  // The object

  datatype Dataset = Dataset(mics: seq<real>, disks: seq<real>)

  /** A loaded dataset: load_dataset keeps the two columns only when they have
      the same length. */
  type LoadedData = d: Dataset | |d.mics| == |d.disks| witness Dataset([], [])

  class ModelParameterSet {
    var dataset: Option<LoadedData>
    var ycutoffS: Entry
    var ycutoffR: Entry
    var xcutoffS: Entry
    var xcutoffR: Entry
    var engine: Mgm
    var strainName: string
    var useUserDefinedDiskCutoffs: bool
    var micVsMic: bool
    var errorCounts: ErrorCounts
    var iPlus2Error: ErrorCounts
    var iPlus1Minus1Error: ErrorCounts
    var iMinus2Error: ErrorCounts
    var essentialAgreement: real
    var categoricalAgreement: real

    constructor ()
      ensures dataset == None
      ensures ycutoffS == Numeric(4.0) && ycutoffR == Numeric(16.0)
      ensures xcutoffS == Numeric(32.0) && xcutoffR == Numeric(12.0)
      ensures fresh(engine) && engine.cutoffR == 0.0 && engine.cutoffS == 0.0
      ensures strainName == "Acinteobacter baumannii"
      ensures !useUserDefinedDiskCutoffs && !micVsMic
      ensures TablesOf() == Reset(0)
      ensures essentialAgreement == 0.0 && categoricalAgreement == 0.0
    {
      dataset := None;
      ycutoffS, ycutoffR := Numeric(4.0), Numeric(16.0);
      xcutoffS, xcutoffR := Numeric(32.0), Numeric(12.0);
      engine := new Mgm();
      strainName := "Acinteobacter baumannii";
      useUserDefinedDiskCutoffs := false;
      micVsMic := false;
      errorCounts, iPlus2Error, iPlus1Minus1Error, iMinus2Error := NoCounts, NoCounts, NoCounts, NoCounts;
      essentialAgreement, categoricalAgreement := 0.0, 0.0;
    }

    function TablesOf(): Tables
      reads this
    {
      Tables(errorCounts, iPlus2Error, iPlus1Minus1Error, iMinus2Error)
    }

    predicate CutoffsNumeric()
      reads this
    {
      ycutoffS.Numeric? && ycutoffR.Numeric? && xcutoffS.Numeric? && xcutoffR.Numeric?
    }

    function Cuts(): Cutoffs
      reads this
      requires CutoffsNumeric()
    {
      Cutoffs(ycutoffS.value, ycutoffR.value, xcutoffS.value, xcutoffR.value)
    }

    /** Everything but the error dictionaries and the agreements is as before. */
    twostate predicate SettingsKept()
      reads this
    {
      dataset == old(dataset) && engine == old(engine) && strainName == old(strainName)
      && ycutoffS == old(ycutoffS) && ycutoffR == old(ycutoffR)
      && xcutoffS == old(xcutoffS) && xcutoffR == old(xcutoffR)
      && useUserDefinedDiskCutoffs == old(useUserDefinedDiskCutoffs) && micVsMic == old(micVsMic)
    }

    /** update_error_tables: convert the four cutoffs to numbers (a failure
        returns a message and changes nothing), reset the dictionaries with
        num_strains = len(mics) (no dataset: len(None) raises), and run the
        per-sample update of the chosen mode. */
    method UpdateErrorTables(isMicVsMic: bool) returns (o: Outcome<string>)
      modifies this
      ensures SettingsKept()
      ensures !old(CutoffsNumeric()) ==> o == Returned("Non-numeric cutoff entered!") && unchanged(this)
      ensures old(CutoffsNumeric()) && old(dataset).None? ==> o == Raised("TypeError") && unchanged(this)
      ensures old(CutoffsNumeric()) && old(dataset).Some? ==>
        var d := old(dataset).value;
        var n := |d.mics|;
        var mode := if isMicVsMic then MicVsMicMode else DiskMode;
        CutoffsNumeric()
        && TablesOf() == Tally(Reset(n), d.mics, d.disks, Cuts(), mode)
        && (!isMicVsMic ==>
              o == Returned("0")
              && essentialAgreement == old(essentialAgreement)
              && categoricalAgreement == old(categoricalAgreement))
        && (isMicVsMic && n == 0 ==>
              o == Raised("ZeroDivisionError")
              && essentialAgreement == 0.0 && categoricalAgreement == 0.0)
        && (isMicVsMic && n > 0 ==>
              o == Returned("0")
              && essentialAgreement == EssentialAgreement(TwofoldCount(d.mics, d.disks), n)
              && categoricalAgreement == CategoricalAgreement(WrongCount(d.mics, d.disks, Cuts(), mode), n))
    {
      if !CutoffsNumeric() {
        return Returned("Non-numeric cutoff entered!");
      }
      if dataset.None? {
        return Raised("TypeError");
      }
      ResetTables(|dataset.value.mics|);
      if !isMicVsMic {
        UpdateErrorForDiskData();
      } else {
        var r := UpdateErrorForMicVsMicData();
        if r.Raised? {
          return Raised(r.exception);
        }
      }
      return Returned("0");
    }

    /** The dictionaries before the pass: num_strains = n overall, every
        other count zero. */
    method ResetTables(n: nat)
      modifies this
      ensures TablesOf() == Reset(n)
      ensures SettingsKept()
      ensures essentialAgreement == old(essentialAgreement) && categoricalAgreement == old(categoricalAgreement)
    {
      errorCounts := ErrorCounts(n, 0, 0, 0);
      iPlus2Error, iPlus1Minus1Error, iMinus2Error := NoCounts, NoCounts, NoCounts;
    }

    /** The body of the per-sample loop shared by both modes: classify the
        sample, count it in its band and record its error there and overall. */
    method CountSample(mic: real, x: real, c: Cutoffs, mode: Mode) returns (errorCode: ErrorKind)
      modifies this
      ensures errorCode == SampleError(mic, x, c, mode)
      ensures TablesOf() == Step(old(TablesOf()), mic, x, c, mode)
      ensures SettingsKept()
      ensures essentialAgreement == old(essentialAgreement) && categoricalAgreement == old(categoricalAgreement)
    {
      var actual := ActualCategory(mic, c);
      var predicted := Predicted(x, c, mode);
      errorCode := CheckIsError(predicted, actual);
      if mic > c.yR {
        iPlus2Error := Record(iPlus2Error.(numStrains := iPlus2Error.numStrains + 1), errorCode);
      } else if mic <= c.yR && mic >= c.yS {
        iPlus1Minus1Error := Record(iPlus1Minus1Error.(numStrains := iPlus1Minus1Error.numStrains + 1), errorCode);
      } else {
        iMinus2Error := Record(iMinus2Error.(numStrains := iMinus2Error.numStrains + 1), errorCode);
      }
      if errorCode != NoError {
        errorCounts := Record(errorCounts, errorCode);
      }
    }

    /** update_error_for_disk_data: one pass over the samples with the disk
        prediction. */
    method UpdateErrorForDiskData()
      requires CutoffsNumeric() && dataset.Some?
      modifies this
      ensures SettingsKept()
      ensures TablesOf() == Tally(old(TablesOf()), old(dataset).value.mics, old(dataset).value.disks, old(Cuts()), DiskMode)
      ensures essentialAgreement == old(essentialAgreement) && categoricalAgreement == old(categoricalAgreement)
    {
      var diskvalue := dataset.value.disks;
      var micvalue := dataset.value.mics;
      var c := Cuts();
      ghost var t0 := TablesOf();
      for i := 0 to |micvalue|
        invariant TablesOf() == Tally(t0, micvalue[..i], diskvalue[..i], c, DiskMode)
        invariant essentialAgreement == old(essentialAgreement) && categoricalAgreement == old(categoricalAgreement)
        invariant SettingsKept()
      {
        PrefixStep(t0, micvalue, diskvalue, i, c, DiskMode);
        var _ := CountSample(micvalue[i], diskvalue[i], c, DiskMode);
      }
      assert micvalue[..|micvalue|] == micvalue;
      assert diskvalue[..|diskvalue|] == diskvalue;
    }

    /** update_error_for_mic_vs_mic_data: zero both agreements, run the same
        pass with the alternate-MIC prediction while counting wrong predictions
        and those within twofold, then divide by the overall num_strains (zero
        raises). */
    method UpdateErrorForMicVsMicData() returns (o: Outcome<()>)
      requires CutoffsNumeric() && dataset.Some?
      modifies this
      ensures SettingsKept()
      ensures TablesOf() == Tally(old(TablesOf()), old(dataset).value.mics, old(dataset).value.disks, old(Cuts()), MicVsMicMode)
      ensures old(errorCounts.numStrains) == 0 ==>
        o == Raised("ZeroDivisionError") && essentialAgreement == 0.0 && categoricalAgreement == 0.0
      ensures old(errorCounts.numStrains) > 0 ==>
        o == Returned(())
        && essentialAgreement
           == EssentialAgreement(TwofoldCount(old(dataset).value.mics, old(dataset).value.disks), old(errorCounts.numStrains))
        && categoricalAgreement
           == CategoricalAgreement(WrongCount(old(dataset).value.mics, old(dataset).value.disks, old(Cuts()), MicVsMicMode),
                                   old(errorCounts.numStrains))
    {
      essentialAgreement := 0.0;
      categoricalAgreement := 0.0;
      var numWrongPredictions, numPredictionsWithinTwofold := MicVsMicPass();
      var n := errorCounts.numStrains;
      if n == 0 {
        return Raised("ZeroDivisionError");
      }
      essentialAgreement := 100.0 * numPredictionsWithinTwofold as real / n as real;
      categoricalAgreement := 100.0 - 100.0 * numWrongPredictions as real / n as real;
      return Returned(());
    }

    /** The per-sample loop of update_error_for_mic_vs_mic_data: the tables
        as in the disk pass, with the numbers of wrong predictions and of
        predictions within twofold. */
    method MicVsMicPass() returns (numWrongPredictions: nat, numPredictionsWithinTwofold: nat)
      requires CutoffsNumeric() && dataset.Some?
      modifies this
      ensures SettingsKept()
      ensures TablesOf() == Tally(old(TablesOf()), old(dataset).value.mics, old(dataset).value.disks, old(Cuts()), MicVsMicMode)
      ensures numWrongPredictions == WrongCount(old(dataset).value.mics, old(dataset).value.disks, old(Cuts()), MicVsMicMode)
      ensures numPredictionsWithinTwofold == TwofoldCount(old(dataset).value.mics, old(dataset).value.disks)
      ensures errorCounts.numStrains == old(errorCounts.numStrains)
      ensures essentialAgreement == old(essentialAgreement) && categoricalAgreement == old(categoricalAgreement)
    {
      numWrongPredictions := 0;
      numPredictionsWithinTwofold := 0;
      var xvalue := dataset.value.disks;
      var micvalue := dataset.value.mics;
      var c := Cuts();
      ghost var t0 := TablesOf();
      for i := 0 to |micvalue|
        invariant TablesOf() == Tally(t0, micvalue[..i], xvalue[..i], c, MicVsMicMode)
        invariant numWrongPredictions == WrongCount(micvalue[..i], xvalue[..i], c, MicVsMicMode)
        invariant numPredictionsWithinTwofold == TwofoldCount(micvalue[..i], xvalue[..i])
        invariant essentialAgreement == old(essentialAgreement) && categoricalAgreement == old(categoricalAgreement)
        invariant errorCounts.numStrains == t0.overall.numStrains
        invariant SettingsKept()
      {
        PrefixStep(t0, micvalue, xvalue, i, c, MicVsMicMode);
        var errorCode := CountSample(micvalue[i], xvalue[i], c, MicVsMicMode);
        if errorCode != NoError {
          numWrongPredictions := numWrongPredictions + 1;
        }
        if xvalue[i] <= micvalue[i] * 2.0 {
          if xvalue[i] >= micvalue[i] * 0.5 {
            numPredictionsWithinTwofold := numPredictionsWithinTwofold + 1;
          }
        }
      }
      assert micvalue[..|micvalue|] == micvalue;
      assert xvalue[..|xvalue|] == xvalue;
    }
  }
}
