/** Values shared by every part of the breakpoint engine: optional values, the
    outcome of a call that may raise, entries as Python's float() sees them,
    symbolic table text, the standard MIC reporting bins and small sequence
    helpers. */
module Common {

  datatype Option<T> = None | Some(value: T)

  /** A user-entered or imported value: either float() accepts it, or it raises. */
  datatype Entry = Numeric(value: real) | NonNumeric

  /** What a call does: it returns a value, or an exception (named by its
      Python class) escapes from it. */
  datatype Outcome<T> = Returned(value: T) | Raised(exception: string)

  /** What a data file holds: disk zones or a second MIC method. */
  datatype DataType = DiskData | MicData

  /** One piece of displayed text. Python's str() of a number and round() to a
      number of digits are kept symbolic: the model records the number, not its
      digits. */
  datatype Piece =
    | Lit(text: string)          // literal text
    | IntStr(n: int)             // str(n) of an int
    | FloatStr(x: real)          // str(x) of a float
    | RoundStr(x: real, d: nat)  // str(round(x, d))

  type Cell = seq<Piece>

  /** str() of an entry of the source's standard-value lists, which write
      0.016 ... 0.5 as floats and 1 ... 256 as ints. */
  function BinStr(v: real): (p: Piece)
    ensures p.IntStr? <==> 1.0 <= v && v.Floor as real == v
    ensures p.IntStr? ==> p.n as real == v
    ensures p.FloatStr? ==> p.x == v
  {
    if 1.0 <= v && v.Floor as real == v then IntStr(v.Floor) else FloatStr(v)
  }

  /** A value of a loaded data frame as pandas holds it: a number of a
      numeric column, or a cell of a column pandas keeps as text because
      float() refuses one of its entries. */
  datatype Held = Num(x: real) | Text(s: string)

  /** Python's order on str: code point by code point, a proper prefix
      first. */
  predicate TextLess(a: string, b: string)
    decreases |a|
  {
    if |a| == 0 then |b| > 0
    else |b| > 0 && (a[0] < b[0] || (a[0] == b[0] && TextLess(a[1..], b[1..])))
  }

  /** The order np.unique sorts a column by: numbers by value, text by
      TextLess. A column is numeric or text throughout, so how a number
      compares with a text is never used; numbers are put first. */
  predicate HeldLess(a: Held, b: Held) {
    match (a, b)
    case (Num(x), Num(y)) => x < y
    case (Text(u), Text(v)) => TextLess(u, v)
    case (Num(_), Text(_)) => true
    case (Text(_), Num(_)) => false
  }

  lemma {:induction false} TextLessIrreflexive(a: string)
    ensures !TextLess(a, a)
  {
    if |a| > 0 {
      TextLessIrreflexive(a[1..]);
    }
  }

  lemma {:induction false} TextLessTotal(a: string, b: string)
    ensures a == b || TextLess(a, b) || TextLess(b, a)
    decreases |a|
  {
    if |a| > 0 && |b| > 0 && a[0] == b[0] {
      TextLessTotal(a[1..], b[1..]);
      if a[1..] == b[1..] {
        assert a == [a[0]] + a[1..] && b == [b[0]] + b[1..];
      }
    }
  }

  /** HeldLess is a strict total order: no value is below itself, and of two
      different values one is below the other. */
  lemma HeldLessStrictTotal(a: Held, b: Held)
    ensures !HeldLess(a, a)
    ensures a == b || HeldLess(a, b) || HeldLess(b, a)
  {
    if a.Text? {
      TextLessIrreflexive(a.s);
      if b.Text? {
        TextLessTotal(a.s, b.s);
      }
    }
  }

  lemma {:induction false} TextLessTransitive(a: string, b: string, c: string)
    requires TextLess(a, b) && TextLess(b, c)
    ensures TextLess(a, c)
    decreases |a|
  {
    if |a| > 0 && a[0] == b[0] && b[0] == c[0] {
      TextLessTransitive(a[1..], b[1..], c[1..]);
    }
  }

  lemma HeldLessTransitive(a: Held, b: Held, c: Held)
    requires HeldLess(a, b) && HeldLess(b, c)
    ensures HeldLess(a, c)
  {
    if a.Text? && b.Text? && c.Text? {
      TextLessTransitive(a.s, b.s, c.s);
    }
  }

  /** The numeric column of the values xs. */
  function Nums(xs: seq<real>): (h: seq<Held>)
    ensures |h| == |xs| && forall i :: 0 <= i < |xs| ==> h[i] == Num(xs[i])
  {
    seq(|xs|, i requires 0 <= i < |xs| => Num(xs[i]))
  }

  /** The sixteen standard MIC reporting values (with 0.125). */
  const MicBins16: seq<real> :=
    [0.016, 0.03, 0.06, 0.12, 0.125, 0.25, 0.5, 1.0, 2.0, 4.0, 8.0, 16.0, 32.0, 64.0, 128.0, 256.0]

  /** The fifteen-value variant of the same list (without 0.125). */
  const MicBins15: seq<real> :=
    [0.016, 0.03, 0.06, 0.12, 0.25, 0.5, 1.0, 2.0, 4.0, 8.0, 16.0, 32.0, 64.0, 128.0, 256.0]

  predicate Increasing(s: seq<real>) {
    forall i, j :: 0 <= i < j < |s| ==> s[i] < s[j]
  }

  predicate AdjacentIncreasing(s: seq<real>) {
    forall i :: 0 <= i < |s| - 1 ==> s[i] < s[i + 1]
  }

  lemma {:induction false} AdjacentToIncreasing(s: seq<real>)
    requires AdjacentIncreasing(s)
    ensures Increasing(s)
  {
    if |s| > 1 {
      AdjacentToIncreasing(s[1..]);
      forall i, j | 0 <= i < j < |s| ensures s[i] < s[j] {
        if i > 0 {
          assert s[1..][i - 1] < s[1..][j - 1];
        } else if j > 1 {
          assert s[1..][0] < s[1..][j - 1];
        }
      }
    }
  }

  lemma BinsIncreasing()
    ensures Increasing(MicBins16) && Increasing(MicBins15)
  {
    assert AdjacentIncreasing(MicBins16);
    assert AdjacentIncreasing(MicBins15);
    AdjacentToIncreasing(MicBins16);
    AdjacentToIncreasing(MicBins15);
  }

  /** Every value of increasing bins is at least the first one. */
  lemma InBinsAtLeastFirst(bins: seq<real>, v: real)
    requires Increasing(bins) && v in bins
    ensures bins[0] <= v
  {
    var k :| 0 <= k < |bins| && bins[k] == v;
    assert k == 0 || bins[0] < bins[k];
  }

  /** The position of the first bin at or above v (|bins| when there is none). */
  function FirstAtLeast(bins: seq<real>, v: real): (k: nat)
    ensures k <= |bins|
    ensures forall j :: 0 <= j < k ==> bins[j] < v
    ensures k < |bins| ==> bins[k] >= v
  {
    if |bins| == 0 then 0
    else if bins[0] >= v then 0
    else 1 + FirstAtLeast(bins[1..], v)
  }

  /** The position of the first bin strictly above v (|bins| when there is none). */
  function FirstAbove(bins: seq<real>, v: real): (k: nat)
    ensures k <= |bins|
    ensures forall j :: 0 <= j < k ==> bins[j] <= v
    ensures k < |bins| ==> bins[k] > v
  {
    if |bins| == 0 then 0
    else if bins[0] > v then 0
    else 1 + FirstAbove(bins[1..], v)
  }

  /** In increasing bins, a value in (bins[i-1], bins[i]] has bins[i] as the
      first bin at or above it. */
  lemma LocateAtLeast(bins: seq<real>, v: real, i: nat)
    requires Increasing(bins) && 0 < i < |bins| && bins[i - 1] < v <= bins[i]
    ensures FirstAtLeast(bins, v) == i
  {
  }

  /** In increasing bins, a value in [bins[i-1], bins[i]) has bins[i] as the
      first bin strictly above it. */
  lemma LocateAbove(bins: seq<real>, v: real, i: nat)
    requires Increasing(bins) && 0 < i < |bins| && bins[i - 1] <= v < bins[i]
    ensures FirstAbove(bins, v) == i
  {
  }

  /** Python's list.index: the first position of v in s, if any. */
  function IndexOf<T(==)>(s: seq<T>, v: T): (r: Option<nat>)
    ensures r.Some? ==> r.value < |s| && s[r.value] == v && forall j :: 0 <= j < r.value ==> s[j] != v
    ensures r.None? <==> v !in s
  {
    if |s| == 0 then None
    else if s[0] == v then Some(0)
    else match IndexOf(s[1..], v)
      case None => None
      case Some(k) => Some(k + 1)
  }

  function SeqMin(s: seq<real>): (m: real)
    requires |s| > 0
    ensures m in s && forall i :: 0 <= i < |s| ==> m <= s[i]
  {
    if |s| == 1 then s[0]
    else var t := SeqMin(s[1..]); if s[0] <= t then s[0] else t
  }

  function SeqMax(s: seq<real>): (m: real)
    requires |s| > 0
    ensures m in s && forall i :: 0 <= i < |s| ==> s[i] <= m
  {
    if |s| == 1 then s[0]
    else var t := SeqMax(s[1..]); if s[0] >= t then s[0] else t
  }

  /** An integer array as np.max and np.min compare it. */
  function AsReals(s: seq<int>): (r: seq<real>)
    ensures |r| == |s| && forall i :: 0 <= i < |s| ==> r[i] == s[i] as real
  {
    seq(|s|, i requires 0 <= i < |s| => s[i] as real)
  }

  /** numpy's clip of one value to [lo, hi]. */
  function Clip(v: real, lo: real, hi: real): (c: real)
    requires lo <= hi
    ensures lo <= c <= hi
    ensures lo <= v <= hi ==> c == v
    ensures v < lo ==> c == lo
    ensures v > hi ==> c == hi
  {
    if v < lo then lo else if v > hi then hi else v
  }

  /** Python's sep.join(parts). */
  function Join(sep: string, parts: seq<string>): string {
    if |parts| == 0 then ""
    else if |parts| == 1 then parts[0]
    else parts[0] + sep + Join(sep, parts[1..])
  }

  /** How many values of xs are among the standard MIC values in bins. */
  function MicValueCount(xs: seq<real>, bins: seq<real>): (c: nat)
    ensures c <= |xs|
  {
    if |xs| == 0 then 0
    else MicValueCount(xs[..|xs| - 1], bins) + (if xs[|xs| - 1] in bins then 1 else 0)
  }

  /** The counting loop of both data-type detectors (likely_mic_values). */
  method CountMicValues(xs: seq<real>, bins: seq<real>) returns (likely: nat)
    ensures likely == MicValueCount(xs, bins)
  {
    likely := 0;
    for i := 0 to |xs|
      invariant likely == MicValueCount(xs[..i], bins)
    {
      assert xs[..i + 1][..i] == xs[..i];
      if xs[i] in bins {
        likely := likely + 1;
      }
    }
    assert xs[..|xs|] == xs;
  }

  /** When every value is a standard MIC value, all of them count. */
  lemma {:induction false} AllMicValuesCount(xs: seq<real>, bins: seq<real>)
    requires forall i :: 0 <= i < |xs| ==> xs[i] in bins
    ensures MicValueCount(xs, bins) == |xs|
  {
    if |xs| > 0 {
      AllMicValuesCount(xs[..|xs| - 1], bins);
    }
  }

  /** What a detector reports: the data type and '0' or an error message. */
  datatype Detection = Detection(kind: DataType, code: string)

  const NonNumericColumnMessage := "Could not process the data! Column 2 contains non-numeric values. Please reload and try again."
  const NegativeColumnMessage := "Could not process the data! Column 2 contains negative values. Please reload and try again."

  /** fit_data messages shared by every variant of it. */
  const CutoffMessage := "The MIC cutoffs you have entered are not valid numeric characters. Try again."
  const ProcessErrorMessage :=
    "The data could not be processed. Typically this error results when it contains non-numeric characters (e.g. <=). Try again."

  predicate AllNumeric(col: seq<Entry>) {
    forall i :: 0 <= i < |col| ==> col[i].Numeric?
  }

  /** The values of a column every entry of which float() accepts. */
  function Values(col: seq<Entry>): (vs: seq<real>)
    requires AllNumeric(col)
    ensures |vs| == |col| && forall i :: 0 <= i < |col| ==> vs[i] == col[i].value
  {
    if |col| == 0 then [] else [col[0].value] + Values(col[1..])
  }
}
