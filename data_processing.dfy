/** Label derivation and fit orchestration of the model-object application
    (scripts/data_processing.py). Training labels here use 0 = resistant,
    1 = intermediate, 2 = susceptible, the reverse of the error tables. */
module DataProcessing {
  import opened Common
  import opened ModelCore
  import opened ModelObject

  /** The training label of one MIC: resistant at or above the R breakpoint,
      susceptible at or below the S breakpoint, intermediate in between. */
  function Label(mic: real, r: real, s: real): (l: int)
    ensures 0 <= l <= 2
    ensures l == 0 <==> mic >= r
    ensures l == 2 <==> mic < r && mic <= s
  {
    if mic >= r then 0 else if mic <= s then 2 else 1
  }

  /** The label array of a MIC column. */
  function Labels(mics: seq<real>, r: real, s: real): seq<int> {
    seq(|mics|, i requires 0 <= i < |mics| => Label(mics[i], r, s))
  }

  /** process_traindata: one label per MIC, and the disk column as it is. */
  method ProcessTraindata(mics: seq<real>, disks: seq<real>, r: real, s: real)
    returns (x: seq<real>, y: seq<int>)
    ensures x == disks
    ensures |y| == |mics| && Labels012(y)
    ensures forall i :: 0 <= i < |mics| ==> y[i] == Label(mics[i], r, s)
    ensures y == Labels(mics, r, s)
  {
    y := [];
    for i := 0 to |mics|
      invariant |y| == i
      invariant forall j :: 0 <= j < i ==> y[j] == Label(mics[j], r, s)
    {
      var yreal := mics[i];
      if yreal >= r {
        y := y + [0];
      } else if yreal <= s {
        y := y + [2];
      } else {
        y := y + [1];
      }
    }
    x := disks;
  }

  /** The guard before fitting: no label 2 (np.max(y) < 2) or no label 0
      (np.min(y) > 0). */
  predicate Degenerate(y: seq<int>)
    requires |y| > 0
  {
    SeqMax(AsReals(y)) < 2.0 || SeqMin(AsReals(y)) > 0.0
  }

  /** On labels in {0, 1, 2} the max/min test says exactly that one of the two
      end classes is missing. */
  lemma DegenerateMissesAClass(y: seq<int>)
    requires |y| > 0 && Labels012(y)
    ensures Degenerate(y) <==> (2 !in y || 0 !in y)
  {
    if 2 in y {
      var i :| 0 <= i < |y| && y[i] == 2;
      assert AsReals(y)[i] <= SeqMax(AsReals(y));
    }
    if 0 in y {
      var i :| 0 <= i < |y| && y[i] == 0;
      assert SeqMin(AsReals(y)) <= AsReals(y)[i];
    }
  }

  /** In terms of the MICs: the data are degenerate exactly when no strain is
      resistant, or no strain is susceptible (below R and at or below S). */
  lemma DegenerateMeaning(mics: seq<real>, y: seq<int>, r: real, s: real)
    requires |mics| > 0 && |y| == |mics|
    requires forall i :: 0 <= i < |mics| ==> y[i] == Label(mics[i], r, s)
    ensures Degenerate(y) <==>
      (forall i :: 0 <= i < |mics| ==> mics[i] < r)
      || (forall i :: 0 <= i < |mics| ==> mics[i] >= r || mics[i] > s)
  {
    assert Labels012(y);
    DegenerateMissesAClass(y);
    assert 0 in y <==> exists i :: 0 <= i < |mics| && mics[i] >= r by {
      if 0 in y {
        var i :| 0 <= i < |y| && y[i] == 0;
        assert mics[i] >= r;
      }
      if exists i :: 0 <= i < |mics| && mics[i] >= r {
        var i :| 0 <= i < |mics| && mics[i] >= r;
        assert y[i] == 0;
      }
    }
    assert 2 in y <==> exists i :: 0 <= i < |mics| && mics[i] < r && mics[i] <= s by {
      if 2 in y {
        var i :| 0 <= i < |y| && y[i] == 2;
        assert mics[i] < r && mics[i] <= s;
      }
      if exists i :: 0 <= i < |mics| && mics[i] < r && mics[i] <= s {
        var i :| 0 <= i < |mics| && mics[i] < r && mics[i] <= s;
        assert y[i] == 2;
      }
    }
  }

  /** What fit_data returns after a fit: '0' when no width ties, otherwise
      ', '.join(['!'] + widths). */
  function TieMessage(ties: seq<string>): (m: string)
    ensures m == "0" <==> ties == []
    ensures ties != [] ==> m == "!, " + Join(", ", ties)
  {
    if |ties| > 0 then
      assert (["!"] + ties)[1..] == ties;
      Join(", ", ["!"] + ties)
    else "0"
  }

  const NoDataMessage := "You want to fit the data, but you haven't loaded any? Try loading some first. Now there's an idea!"
  const ManualMessage := "You've chosen to enter user-specified disk cutoffs BUT have entered non-numeric values. Please revise."
  const DegenerateMessage :=
    "You are trying to fit data that either does not contain any resistant strains or does not contain any susceptible strains "
    + "(i.e. there are only resistant + intermediate or resistant + susceptible in this dataset). Autofitting will "
    + "not work. You could use manual cutoff selection for this dataset. Check the manual override button to proceed."

  /** Every field of the model but the two disk cutoffs is as before. */
  twostate predicate OnlyDiskCutoffsChange(m: ModelParameterSet)
    reads m
  {
    m.dataset == old(m.dataset) && m.engine == old(m.engine) && m.strainName == old(m.strainName)
    && m.ycutoffS == old(m.ycutoffS) && m.ycutoffR == old(m.ycutoffR)
    && m.useUserDefinedDiskCutoffs == old(m.useUserDefinedDiskCutoffs) && m.micVsMic == old(m.micVsMic)
    && m.TablesOf() == old(m.TablesOf())
    && m.essentialAgreement == old(m.essentialAgreement) && m.categoricalAgreement == old(m.categoricalAgreement)
  }

  /** The path fit_data takes before it would call the engine. */
  predicate ReachesEngine(m: ModelParameterSet)
    reads m
  {
    m.ycutoffR.Numeric? && m.ycutoffS.Numeric? && m.dataset.Some?
    && !(m.useUserDefinedDiskCutoffs && !m.micVsMic) && !m.micVsMic
  }

  /** fit_data: the guards in source order, then the fit. A message is
      returned as a value; an exception escaping (np.max of an empty label
      array) is Raised. */
  method FitData(m: ModelParameterSet) returns (o: Outcome<string>)
    modifies m, m.engine
    ensures OnlyDiskCutoffsChange(m)
    ensures !(old(m.ycutoffR).Numeric? && old(m.ycutoffS).Numeric?) ==>
      o == Returned(CutoffMessage) && unchanged(m, m.engine)
    ensures old(m.ycutoffR).Numeric? && old(m.ycutoffS).Numeric? && old(m.dataset).None? ==>
      o == Returned(NoDataMessage) && unchanged(m, m.engine)
    ensures (old(m.ycutoffR).Numeric? && old(m.ycutoffS).Numeric? && old(m.dataset).Some?
             && old(m.useUserDefinedDiskCutoffs) && !old(m.micVsMic)) ==>
      unchanged(m, m.engine)
      && o == Returned(if old(m.xcutoffR).Numeric? && old(m.xcutoffS).Numeric? then "0" else ManualMessage)
    ensures old(m.ycutoffR).Numeric? && old(m.ycutoffS).Numeric? && old(m.dataset).Some? && old(m.micVsMic) ==>
      o == Returned("0") && unchanged(m.engine)
      && m.xcutoffR == Numeric(old(m.ycutoffR).value) && m.xcutoffS == Numeric(old(m.ycutoffS).value)
    ensures old(ReachesEngine(m)) && |old(m.dataset).value.mics| == 0 ==>
      o == Raised("ValueError") && unchanged(m, m.engine)
    ensures old(ReachesEngine(m)) && |old(m.dataset).value.mics| > 0 ==>
      var d := old(m.dataset).value;
      var y := Labels(d.mics, old(m.ycutoffR).value, old(m.ycutoffS).value);
      (Degenerate(y) ==> o == Returned(DegenerateMessage) && unchanged(m, m.engine))
      && (!Degenerate(y) ==>
            m.engine.cutoffR == ChosenFit(d.disks, y).cutoffR && m.engine.cutoffS == ChosenFit(d.disks, y).cutoffS
            && m.xcutoffR == Numeric(ChosenFit(d.disks, y).cutoffR)
            && m.xcutoffS == Numeric(ChosenFit(d.disks, y).cutoffS)
            && o == Returned(TieMessage(Ties(d.disks, y))))
  {
    if !(m.ycutoffR.Numeric? && m.ycutoffS.Numeric?) {
      return Returned(CutoffMessage);
    }
    var miccutoffR := m.ycutoffR.value;
    var miccutoffS := m.ycutoffS.value;
    if m.dataset.None? {
      return Returned(NoDataMessage);
    }
    if m.useUserDefinedDiskCutoffs && !m.micVsMic {
      if !(m.xcutoffR.Numeric? && m.xcutoffS.Numeric?) {
        return Returned(ManualMessage);
      }
      return Returned("0");
    }
    if m.micVsMic {
      m.xcutoffR := Numeric(miccutoffR);
      m.xcutoffS := Numeric(miccutoffS);
      return Returned("0");
    }
    var d := m.dataset.value;
    var x, y := ProcessTraindata(d.mics, d.disks, miccutoffR, miccutoffS);
    if |y| == 0 {
      return Raised("ValueError");
    }
    if Degenerate(y) {
      return Returned(DegenerateMessage);
    }
    var windowWidths := m.engine.FitDiskData(x, y);
    m.xcutoffR := Numeric(m.engine.cutoffR);
    m.xcutoffS := Numeric(m.engine.cutoffS);
    if |windowWidths| > 0 {
      return Returned(Join(", ", ["!"] + windowWidths));
    } else {
      return Returned("0");
    }
  }
}
