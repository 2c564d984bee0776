/** The impurity scorer and the threshold optimiser of the `mgm` engine
    (scripts/model_core.py): a weighted three-way Gini score of a cutoff pair
    and an exhaustive unit-step search over windows of width 1 to 4. Labels are
    the integers the caller passes; the engine itself does not care which of 0
    and 2 means resistant. */
module ModelCore {
  import opened Common

  /** Number of occurrences of label v in pop. */
  function Count(pop: seq<int>, v: int): (c: nat)
    ensures c <= |pop|
  {
    if |pop| == 0 then 0 else (if pop[0] == v then 1 else 0) + Count(pop[1..], v)
  }

  predicate Labels012(pop: seq<int>) {
    forall i :: 0 <= i < |pop| ==> 0 <= pop[i] <= 2
  }

  lemma {:induction false} CountSum(pop: seq<int>)
    ensures Count(pop, 0) + Count(pop, 1) + Count(pop, 2) <= |pop|
    ensures Labels012(pop) ==> Count(pop, 0) + Count(pop, 1) + Count(pop, 2) == |pop|
  {
    if |pop| > 0 {
      CountSum(pop[1..]);
      assert Labels012(pop) ==> Labels012(pop[1..]);
    }
  }

  /** One minus the sum of the squared shares of labels 2, 1 and 0. */
  function Gini(pop: seq<int>): (g: real)
    requires |pop| > 0
  {
    Impurity(Count(pop, 0), Count(pop, 1), Count(pop, 2), |pop|)
  }

  /** 1 - p2^2 - p1^2 - p0^2 for label counts c0, c1, c2 out of n. */
  function Impurity(c0: nat, c1: nat, c2: nat, n: nat): real
    requires n > 0
  {
    var p2 := c2 as real / n as real;
    var p1 := c1 as real / n as real;
    var p0 := c0 as real / n as real;
    1.0 - p2 * p2 - p1 * p1 - p0 * p0
  }

  // Small facts of real arithmetic, each proved on its own so that the solver
  // never faces more than one nonlinear step at a time.

  lemma MulNonneg(x: real, y: real)
    requires x >= 0.0 && y >= 0.0
    ensures x * y >= 0.0
  {
  }

  lemma Square(x: real)
    ensures x * x >= 0.0
  {
  }

  lemma UnitSquare(t: real)
    requires 0.0 <= t <= 1.0
    ensures t * t <= 1.0
  {
    MulNonneg(t, 1.0 - t);
    assert t * (1.0 - t) == t - t * t;
  }

  lemma SumSquare(p0: real, p1: real, p2: real)
    ensures (p0 + p1 + p2) * (p0 + p1 + p2)
            == p0 * p0 + p1 * p1 + p2 * p2 + 2.0 * (p0 * p1 + p1 * p2 + p0 * p2)
  {
  }

  lemma DifferenceSquares(p0: real, p1: real, p2: real)
    ensures (p0 - p1) * (p0 - p1) + (p1 - p2) * (p1 - p2) + (p0 - p2) * (p0 - p2)
            == 2.0 * (p0 * p0 + p1 * p1 + p2 * p2) - 2.0 * (p0 * p1 + p1 * p2 + p0 * p2)
  {
  }

  lemma DivAdd(a: real, b: real, n: real)
    requires n > 0.0
    ensures a / n + b / n == (a + b) / n
  {
  }

  lemma DivUnit(a: real, n: real)
    requires n > 0.0 && 0.0 <= a <= n
    ensures 0.0 <= a / n <= 1.0
    ensures a == n ==> a / n == 1.0
  {
  }

  lemma Cancel(x: real, y: real, n: real)
    requires n > 0.0 && x * n == y * n
    ensures x == y
  {
    assert (x - y) * n == 0.0;
  }

  /** Shares that are non-negative and add up to at most one have a square sum
      in [0, 1]; when they add up to exactly one the sum is at least 1/3. */
  lemma SquareSumBounds(p0: real, p1: real, p2: real)
    requires p0 >= 0.0 && p1 >= 0.0 && p2 >= 0.0 && p0 + p1 + p2 <= 1.0
    ensures 0.0 <= p0 * p0 + p1 * p1 + p2 * p2 <= 1.0
    ensures p0 + p1 + p2 == 1.0 ==> p0 * p0 + p1 * p1 + p2 * p2 >= 1.0 / 3.0
  {
    SumSquare(p0, p1, p2);
    DifferenceSquares(p0, p1, p2);
    Square(p0); Square(p1); Square(p2);
    Square(p0 - p1); Square(p1 - p2); Square(p0 - p2);
    MulNonneg(p0, p1); MulNonneg(p1, p2); MulNonneg(p0, p2);
    UnitSquare(p0 + p1 + p2);
  }

  lemma SharesAddUp(a: nat, b: nat, c: nat, n: nat)
    requires n > 0 && a + b + c <= n
    ensures a as real / n as real + b as real / n as real + c as real / n as real
            == (a + b + c) as real / n as real
    ensures 0.0 <= (a + b + c) as real / n as real <= 1.0
    ensures a + b + c == n ==> (a + b + c) as real / n as real == 1.0
  {
    var N := n as real;
    DivAdd(a as real, b as real, N);
    DivAdd((a + b) as real, c as real, N);
    DivUnit((a + b + c) as real, N);
  }

  lemma ImpurityBounds(c0: nat, c1: nat, c2: nat, n: nat)
    requires n > 0 && c0 + c1 + c2 <= n
    ensures 0.0 <= Impurity(c0, c1, c2, n) <= 1.0
    ensures c0 + c1 + c2 == n ==> Impurity(c0, c1, c2, n) <= 2.0 / 3.0
  {
    SharesAddUp(c0, c1, c2, n);
    DivUnit(c0 as real, n as real); DivUnit(c1 as real, n as real); DivUnit(c2 as real, n as real);
    SquareSumBounds(c0 as real / n as real, c1 as real / n as real, c2 as real / n as real);
  }

  /** The impurity lies in [0, 1]; for labels in {0, 1, 2} it is at most 2/3. */
  lemma GiniBounds(pop: seq<int>)
    requires |pop| > 0
    ensures 0.0 <= Gini(pop) <= 1.0
    ensures Labels012(pop) ==> Gini(pop) <= 2.0 / 3.0
  {
    CountSum(pop);
    ImpurityBounds(Count(pop, 0), Count(pop, 1), Count(pop, 2), |pop|);
  }

  /** A population of one label from {0, 1, 2} is pure: its impurity is 0. */
  lemma GiniPure(pop: seq<int>, v: int)
    requires |pop| > 0 && 0 <= v <= 2
    requires forall i :: 0 <= i < |pop| ==> pop[i] == v
    ensures Gini(pop) == 0.0
  {
    CountAll(pop, v);
    forall u | u != v ensures Count(pop, u) == 0 { CountNone(pop, u); }
    DivUnit(|pop| as real, |pop| as real);
  }

  lemma {:induction false} CountAll(pop: seq<int>, v: int)
    requires forall i :: 0 <= i < |pop| ==> pop[i] == v
    ensures Count(pop, v) == |pop|
  {
    if |pop| > 0 { CountAll(pop[1..], v); }
  }

  lemma {:induction false} CountNone(pop: seq<int>, v: int)
    requires forall i :: 0 <= i < |pop| ==> pop[i] != v
    ensures Count(pop, v) == 0
  {
    if |pop| > 0 { CountNone(pop[1..], v); }
  }

  lemma ImpurityEven(c: nat)
    requires c > 0
    ensures Impurity(c, c, c, 3 * c) == 2.0 / 3.0
  {
    var p := c as real / (3 * c) as real;
    assert p * (3 * c) as real == c as real;
    assert (1.0 / 3.0) * (3 * c) as real == c as real;
    Cancel(p, 1.0 / 3.0, (3 * c) as real);
  }

  /** An even three-way split has the largest impurity, 2/3. */
  lemma GiniEvenSplit(pop: seq<int>)
    requires |pop| > 0
    requires Count(pop, 0) == Count(pop, 1) == Count(pop, 2) && 3 * Count(pop, 0) == |pop|
    ensures Gini(pop) == 2.0 / 3.0
  {
    ImpurityEven(Count(pop, 0));
  }

  /** The three regions a cutoff pair (S, R) cuts the x axis into. */
  datatype Region = AtLeastS | AtMostR | Between

  predicate InRegion(v: real, s: real, r: real, g: Region) {
    match g
    case AtLeastS => v >= s
    case AtMostR => v <= r
    case Between => v < s && v > r
  }

  /** The labels, in index order, of the samples whose x lies in region g. */
  function Subset(x: seq<real>, y: seq<int>, s: real, r: real, g: Region): (sub: seq<int>)
    requires |x| == |y|
    ensures |sub| <= |x|
    ensures Labels012(y) ==> Labels012(sub)
  {
    if |x| == 0 then []
    else (if InRegion(x[0], s, r, g) then [y[0]] else []) + Subset(x[1..], y[1..], s, r, g)
  }

  /** The indices of the samples whose x lies in region g. */
  function IndexSet(x: seq<real>, s: real, r: real, g: Region): set<nat> {
    set i: nat | i < |x| && InRegion(x[i], s, r, g)
  }

  /** The share of the population whose x lies in region g (0 for no samples). */
  function Share(x: seq<real>, y: seq<int>, s: real, r: real, g: Region): real
    requires |x| == |y|
  {
    if |x| == 0 then 0.0 else |Subset(x, y, s, r, g)| as real / |x| as real
  }

  /** The share k/n of the population times the impurity g. */
  function Weighted(k: nat, n: nat, g: real): real
    requires n > 0
  {
    (k as real / n as real) * g
  }

  lemma WeightedBound(k: nat, n: nat, g: real, hi: real)
    requires 0 < n && k <= n && 0.0 <= g <= hi
    ensures 0.0 <= Weighted(k, n, g) <= hi * (k as real / n as real)
  {
    var w := k as real / n as real;
    DivUnit(k as real, n as real);
    MulNonneg(w, g);
    MulNonneg(w, hi - g);
    assert w * (hi - g) == w * hi - w * g;
  }

  /** How many samples lie in region g (the length of that index set). */
  function RegionSize(x: seq<real>, s: real, r: real, g: Region): nat {
    if |x| == 0 then 0
    else (if InRegion(x[0], s, r, g) then 1 else 0) + RegionSize(x[1..], s, r, g)
  }

  /** How many samples lie in region g and carry label v. */
  function RegionCount(x: seq<real>, y: seq<int>, s: real, r: real, g: Region, v: int): nat
    requires |x| == |y|
  {
    if |x| == 0 then 0
    else (if InRegion(x[0], s, r, g) && y[0] == v then 1 else 0) + RegionCount(x[1..], y[1..], s, r, g, v)
  }

  /** One region's weighted contribution: share of the population times the
      impurity of the region's labels, or nothing for an empty region. It is
      computed from counts; TermIsWeightedGini relates it to Gini of Subset. */
  function Term(x: seq<real>, y: seq<int>, s: real, r: real, g: Region): real
    requires |x| == |y|
  {
    var k := RegionSize(x, s, r, g);
    if k > 0 then
      Weighted(k, |x|, Impurity(RegionCount(x, y, s, r, g, 0), RegionCount(x, y, s, r, g, 1),
                                RegionCount(x, y, s, r, g, 2), k))
    else 0.0
  }

  lemma {:induction false} SubsetCounts(x: seq<real>, y: seq<int>, s: real, r: real, g: Region, v: int)
    requires |x| == |y|
    ensures |Subset(x, y, s, r, g)| == RegionSize(x, s, r, g)
    ensures Count(Subset(x, y, s, r, g), v) == RegionCount(x, y, s, r, g, v)
  {
    if |x| > 0 {
      SubsetCounts(x[1..], y[1..], s, r, g, v);
      var head: seq<int> := if InRegion(x[0], s, r, g) then [y[0]] else [];
      CountAppend(head, Subset(x[1..], y[1..], s, r, g), v);
    }
  }

  lemma {:induction false} CountAppend(a: seq<int>, b: seq<int>, v: int)
    ensures Count(a + b, v) == Count(a, v) + Count(b, v)
  {
    if |a| == 0 {
      assert a + b == b;
    } else {
      CountAppend(a[1..], b, v);
      assert (a + b)[0] == a[0];
      assert (a + b)[1..] == a[1..] + b;
    }
  }

  /** Each region contributes exactly what score_disk_fit adds for it: the
      region's size over the population size times the gini of its labels, and
      nothing when the region is empty. */
  lemma TermIsWeightedGini(x: seq<real>, y: seq<int>, s: real, r: real, g: Region)
    requires |x| == |y|
    ensures var sub := Subset(x, y, s, r, g);
      Term(x, y, s, r, g) == if |sub| > 0 then Weighted(|sub|, |x|, Gini(sub)) else 0.0
  {
    var sub := Subset(x, y, s, r, g);
    SubsetCounts(x, y, s, r, g, 0);
    SubsetCounts(x, y, s, r, g, 1);
    SubsetCounts(x, y, s, r, g, 2);
    if |sub| > 0 {
      assert Gini(sub) == Impurity(RegionCount(x, y, s, r, g, 0), RegionCount(x, y, s, r, g, 1),
                                   RegionCount(x, y, s, r, g, 2), RegionSize(x, s, r, g));
    }
  }

  lemma TermBounds(x: seq<real>, y: seq<int>, s: real, r: real, g: Region)
    requires |x| == |y|
    ensures 0.0 <= Term(x, y, s, r, g) <= Share(x, y, s, r, g)
    ensures Labels012(y) ==> Term(x, y, s, r, g) <= (2.0 / 3.0) * Share(x, y, s, r, g)
  {
    var sub := Subset(x, y, s, r, g);
    TermIsWeightedGini(x, y, s, r, g);
    if |sub| > 0 {
      var w := |sub| as real / |x| as real;
      assert Share(x, y, s, r, g) == w;
      GiniBounds(sub);
      WeightedBound(|sub|, |x|, Gini(sub), 1.0);
      assert Term(x, y, s, r, g) <= w;
      if Labels012(y) {
        WeightedBound(|sub|, |x|, Gini(sub), 2.0 / 3.0);
      }
    } else if |x| > 0 {
      assert Share(x, y, s, r, g) == 0.0;
    }
  }

  /** score_disk_fit: the size-weighted sum of the impurities of the three regions. */
  function ScoreDiskFit(x: seq<real>, y: seq<int>, s: real, r: real): real
    requires |x| == |y|
  {
    Term(x, y, s, r, AtLeastS) + Term(x, y, s, r, AtMostR) + Term(x, y, s, r, Between)
  }

  /** The score is never negative; for a proper pair (R < S) it is at most 1,
      and at most 2/3 for labels in {0, 1, 2}. */
  lemma ScoreBounds(x: seq<real>, y: seq<int>, s: real, r: real)
    requires |x| == |y|
    ensures ScoreDiskFit(x, y, s, r) >= 0.0
    ensures r < s ==> ScoreDiskFit(x, y, s, r) <= 1.0
    ensures r < s && Labels012(y) ==> ScoreDiskFit(x, y, s, r) <= 2.0 / 3.0
  {
    TermBounds(x, y, s, r, AtLeastS);
    TermBounds(x, y, s, r, AtMostR);
    TermBounds(x, y, s, r, Between);
    if r < s {
      SharesPartition(x, y, s, r);
    }
  }

  /** When R < S and there are samples, the three shares add up to one. */
  lemma SharesPartition(x: seq<real>, y: seq<int>, s: real, r: real)
    requires |x| == |y| && r < s
    ensures |x| > 0 ==>
      Share(x, y, s, r, AtLeastS) + Share(x, y, s, r, AtMostR) + Share(x, y, s, r, Between) == 1.0
  {
    PartitionSizes(x, y, s, r);
    if |x| > 0 {
      SharesAddUp(|Subset(x, y, s, r, AtLeastS)|, |Subset(x, y, s, r, AtMostR)|,
                  |Subset(x, y, s, r, Between)|, |x|);
    }
  }

  /** When R < S every sample lies in exactly one region. */
  lemma {:induction false} PartitionSizes(x: seq<real>, y: seq<int>, s: real, r: real)
    requires |x| == |y| && r < s
    ensures |Subset(x, y, s, r, AtLeastS)| + |Subset(x, y, s, r, AtMostR)|
            + |Subset(x, y, s, r, Between)| == |x|
  {
    if |x| > 0 { PartitionSizes(x[1..], y[1..], s, r); }
  }

  /** When R < S the three index sets are pairwise disjoint and cover every index. */
  lemma PartitionIndices(x: seq<real>, s: real, r: real)
    requires r < s
    ensures IndexSet(x, s, r, AtLeastS) * IndexSet(x, s, r, AtMostR) == {}
    ensures IndexSet(x, s, r, AtLeastS) * IndexSet(x, s, r, Between) == {}
    ensures IndexSet(x, s, r, AtMostR) * IndexSet(x, s, r, Between) == {}
    ensures forall i: nat :: i < |x| <==>
      i in IndexSet(x, s, r, AtLeastS) + IndexSet(x, s, r, AtMostR) + IndexSet(x, s, r, Between)
  {
  }

  // ---------------------------------------------------------------------------
  // The search

  const AllowedWidths: seq<real> := [1.0, 2.0, 3.0, 4.0]
  /** str() of each allowed width, as the tie report shows it. */
  const WidthNames: seq<string> := ["1.0", "2.0", "3.0", "4.0"]

  /** How many R candidates min(x), min(x)+1, ... do not exceed max(x). */
  function CandidateCount(x: seq<real>): (k: nat)
    requires |x| > 0
    ensures k >= 1
    ensures SeqMin(x) + (k - 1) as real <= SeqMax(x) < SeqMin(x) + k as real
  {
    (SeqMax(x) - SeqMin(x)).Floor + 1
  }

  /** The best score of one width and the pair that gave it. */
  datatype Best = Best(score: real, cutoffR: real, cutoffS: real)

  /** The score of the k-th candidate of width w: R = min(x) + k, S = R + w. */
  function CandidateScore(x: seq<real>, y: seq<int>, w: real, k: nat): real
    requires 0 < |x| == |y|
  {
    var r := SeqMin(x) + k as real;
    ScoreDiskFit(x, y, r + w, r)
  }

  lemma CandidateAt(x: seq<real>, y: seq<int>, w: real, k: nat, r: real, s: real)
    requires 0 < |x| == |y| && r == SeqMin(x) + k as real && s == r + w
    ensures CandidateScore(x, y, w, k) == ScoreDiskFit(x, y, s, r)
  {
  }

  /** The running best of width w after its first k candidates; it starts at
      score 1 with both cutoffs 0, and a candidate replaces it when its score is
      not larger. */
  function BestOfWidth(x: seq<real>, y: seq<int>, w: real, k: nat): Best
    requires 0 < |x| == |y|
  {
    if k == 0 then Best(1.0, 0.0, 0.0)
    else
      var b := BestOfWidth(x, y, w, k - 1);
      var r := SeqMin(x) + (k - 1) as real;
      var sc := CandidateScore(x, y, w, k - 1);
      if sc <= b.score then Best(sc, r, r + w) else b
  }

  function WidthBest(x: seq<real>, y: seq<int>, i: nat): Best
    requires 0 < |x| == |y| && i < 4
  {
    BestOfWidth(x, y, AllowedWidths[i], CandidateCount(x))
  }

  function WidthScores(x: seq<real>, y: seq<int>): (sc: seq<real>)
    requires 0 < |x| == |y|
    ensures |sc| == 4 && forall i :: 0 <= i < 4 ==> sc[i] == WidthBest(x, y, i).score
  {
    seq(4, i requires 0 <= i < 4 => WidthBest(x, y, i).score)
  }

  /** numpy's argmin: the first index holding the minimum. */
  function FirstArgMin(s: seq<real>): (i: nat)
    requires |s| > 0
    ensures i < |s| && s[i] == SeqMin(s)
    ensures forall j :: 0 <= j < i ==> s[j] > s[i]
  {
    if |s| == 1 then 0
    else if s[0] <= SeqMin(s[1..]) then 0
    else FirstArgMin(s[1..]) + 1
  }

  /** Number of entries of s equal to m. */
  function CountEq(s: seq<real>, m: real): nat {
    if |s| == 0 then 0 else (if s[0] == m then 1 else 0) + CountEq(s[1..], m)
  }

  /** The names of the widths whose score equals m, in ascending width order. */
  function NamesAt(s: seq<real>, m: real, from: nat): (r: seq<string>)
    requires from <= |s| <= 4
    decreases |s| - from
  {
    if from == |s| then []
    else (if s[from] == m then [WidthNames[from]] else []) + NamesAt(s, m, from + 1)
  }

  function ChosenIndex(x: seq<real>, y: seq<int>): nat
    requires 0 < |x| == |y|
  {
    FirstArgMin(WidthScores(x, y))
  }

  /** The pair fit_disk_data leaves in cutoff_R and cutoff_S. */
  function ChosenFit(x: seq<real>, y: seq<int>): Best
    requires 0 < |x| == |y|
  {
    WidthBest(x, y, ChosenIndex(x, y))
  }

  /** What fit_disk_data returns: nothing when one width alone attains the
      minimum, else the names of all widths that do. */
  function Ties(x: seq<real>, y: seq<int>): seq<string>
    requires 0 < |x| == |y|
  {
    var sc := WidthScores(x, y);
    var m := SeqMin(sc);
    if CountEq(sc, m) > 1 then NamesAt(sc, m, 0) else []
  }

  // ---------------------------------------------------------------------------
  // What the search promises

  /** Candidate j of width w is the last of the first k candidates with the
      lowest score, and the running best holds it. */
  ghost predicate IsLastMinimum(x: seq<real>, y: seq<int>, w: real, k: nat, j: nat)
    requires 0 < |x| == |y|
  {
    j < k
    && BestOfWidth(x, y, w, k)
       == Best(CandidateScore(x, y, w, j), SeqMin(x) + j as real, SeqMin(x) + j as real + w)
    && (forall i :: 0 <= i < k ==> CandidateScore(x, y, w, j) <= CandidateScore(x, y, w, i))
    && (forall i :: j < i < k ==> CandidateScore(x, y, w, j) < CandidateScore(x, y, w, i))
  }

  /** Once a width has tried at least one candidate, the initial row (score 1,
      cutoffs 0) is gone: the kept pair is a candidate of that width, namely the
      last one among those tied at the lowest score, since `<=` lets a later tie
      replace an earlier one. */
  lemma {:induction false} BestIsLastMinimum(x: seq<real>, y: seq<int>, w: real, k: nat)
    requires 0 < |x| == |y| && w > 0.0 && k >= 1
    ensures exists j :: IsLastMinimum(x, y, w, k, j)
  {
    var lo := SeqMin(x);
    if k == 1 {
      ScoreBounds(x, y, lo + w, lo);
      assert IsLastMinimum(x, y, w, 1, 0);
    } else {
      BestIsLastMinimum(x, y, w, k - 1);
      var j :| IsLastMinimum(x, y, w, k - 1, j);
      LastMinimumStep(x, y, w, k, j);
    }
  }

  /** One more candidate: it becomes the last minimum when its score does not
      exceed the best so far, and the best stays otherwise. */
  lemma LastMinimumStep(x: seq<real>, y: seq<int>, w: real, k: nat, j: nat)
    requires 0 < |x| == |y| && k >= 2 && IsLastMinimum(x, y, w, k - 1, j)
    ensures CandidateScore(x, y, w, k - 1) <= CandidateScore(x, y, w, j) ==> IsLastMinimum(x, y, w, k, k - 1)
    ensures CandidateScore(x, y, w, k - 1) > CandidateScore(x, y, w, j) ==> IsLastMinimum(x, y, w, k, j)
  {
    var lo := SeqMin(x);
    var sc := CandidateScore(x, y, w, k - 1);
    var b := BestOfWidth(x, y, w, k - 1);
    assert b.score == CandidateScore(x, y, w, j);
    assert BestOfWidth(x, y, w, k) == if sc <= b.score then Best(sc, lo + (k - 1) as real, lo + (k - 1) as real + w) else b;
  }

  /** Every width's best pair is a window of exactly that width whose R lies in
      [min(x), max(x)], and its score is the lowest of the width's candidates. */
  lemma WidthBestWindow(x: seq<real>, y: seq<int>, i: nat)
    requires 0 < |x| == |y| && i < 4
    ensures WidthBest(x, y, i).cutoffS - WidthBest(x, y, i).cutoffR == AllowedWidths[i]
    ensures SeqMin(x) <= WidthBest(x, y, i).cutoffR <= SeqMax(x)
    ensures forall k :: 0 <= k < CandidateCount(x) ==>
      WidthBest(x, y, i).score <= CandidateScore(x, y, AllowedWidths[i], k)
  {
    var n := CandidateCount(x);
    BestIsLastMinimum(x, y, AllowedWidths[i], n);
    var j :| IsLastMinimum(x, y, AllowedWidths[i], n, j);
    assert SeqMin(x) + j as real <= SeqMin(x) + (n - 1) as real;
  }

  /** The pair fit_disk_data adopts comes from the first width (in the order
      1, 2, 3, 4) whose best score is the overall minimum: its cutoffs are that
      width apart and R lies in [min(x), max(x)]. */
  lemma ChosenFitWindow(x: seq<real>, y: seq<int>)
    requires 0 < |x| == |y|
    ensures ChosenIndex(x, y) < 4
    ensures ChosenFit(x, y).cutoffS - ChosenFit(x, y).cutoffR == AllowedWidths[ChosenIndex(x, y)]
    ensures SeqMin(x) <= ChosenFit(x, y).cutoffR <= SeqMax(x)
    ensures forall i :: 0 <= i < 4 ==> ChosenFit(x, y).score <= WidthBest(x, y, i).score
    ensures forall i :: 0 <= i < ChosenIndex(x, y) ==> WidthBest(x, y, i).score > ChosenFit(x, y).score
  {
    WidthBestWindow(x, y, ChosenIndex(x, y));
  }

  /** The position of a width's name in WidthNames (4 for any other string). */
  function Rank(name: string): nat {
    if name == WidthNames[0] then 0
    else if name == WidthNames[1] then 1
    else if name == WidthNames[2] then 2
    else if name == WidthNames[3] then 3
    else 4
  }

  lemma RankOfName(i: nat)
    requires i < 4
    ensures Rank(WidthNames[i]) == i
  {
    assert WidthNames[0][0] == '1' && WidthNames[1][0] == '2';
    assert WidthNames[2][0] == '3' && WidthNames[3][0] == '4';
  }

  /** The names NamesAt lists from position `from` on: one per score equal to
      m, each the name of such a width, in strictly increasing width order. */
  lemma {:induction false} NamesAtSpec(sc: seq<real>, m: real, from: nat)
    requires from <= |sc| == 4
    ensures |NamesAt(sc, m, from)| == CountEq(sc[from..], m)
    ensures forall a :: 0 <= a < |NamesAt(sc, m, from)| ==>
      from <= Rank(NamesAt(sc, m, from)[a]) < 4 && sc[Rank(NamesAt(sc, m, from)[a])] == m
      && NamesAt(sc, m, from)[a] == WidthNames[Rank(NamesAt(sc, m, from)[a])]
    ensures forall a, b :: 0 <= a < b < |NamesAt(sc, m, from)| ==>
      Rank(NamesAt(sc, m, from)[a]) < Rank(NamesAt(sc, m, from)[b])
    ensures forall i :: from <= i < 4 && sc[i] == m ==> WidthNames[i] in NamesAt(sc, m, from)
    decreases 4 - from
  {
    if from < 4 {
      NamesAtSpec(sc, m, from + 1);
      RankOfName(from);
      var rest := NamesAt(sc, m, from + 1);
      assert sc[from..][1..] == sc[from + 1..];
      var head := if sc[from] == m then [WidthNames[from]] else [];
      assert NamesAt(sc, m, from) == head + rest;
      forall i | from <= i < 4 && sc[i] == m ensures WidthNames[i] in NamesAt(sc, m, from) {
        if i > from {
          assert WidthNames[i] in rest;
        }
      }
    } else {
      assert sc[from..] == [];
    }
  }

  /** A name is listed by NamesAt only for a width whose score equals m, and the
      first one listed belongs to the first such width. */
  lemma NamesAtFirst(sc: seq<real>, m: real, i: nat)
    requires |sc| == 4 && i < 4 && sc[i] == m
    requires forall j :: 0 <= j < i ==> sc[j] != m
    ensures |NamesAt(sc, m, 0)| > 0 && NamesAt(sc, m, 0)[0] == WidthNames[i]
  {
    NamesAtSpec(sc, m, 0);
    var t := NamesAt(sc, m, 0);
    assert WidthNames[i] in t;
    RankOfName(i);
  }

  /** At least one width attains the minimum. */
  lemma {:induction false} CountEqMember(s: seq<real>, m: real)
    requires m in s
    ensures CountEq(s, m) >= 1
  {
    if s[0] != m {
      CountEqMember(s[1..], m);
    }
  }

  /** The tie report of fit_disk_data: empty exactly when one width alone
      attains the minimum score; otherwise the names of all widths that attain
      it, each once, in ascending width order, led by the adopted width. */
  lemma TiesReport(x: seq<real>, y: seq<int>)
    requires 0 < |x| == |y|
    ensures Ties(x, y) == [] <==> CountEq(WidthScores(x, y), SeqMin(WidthScores(x, y))) == 1
    ensures Ties(x, y) != [] ==>
      |Ties(x, y)| == CountEq(WidthScores(x, y), SeqMin(WidthScores(x, y)))
      && Ties(x, y)[0] == WidthNames[ChosenIndex(x, y)]
      && (forall i :: 0 <= i < 4 ==>
            (WidthNames[i] in Ties(x, y) <==> WidthBest(x, y, i).score == SeqMin(WidthScores(x, y))))
      && (forall a, b :: 0 <= a < b < |Ties(x, y)| ==> Rank(Ties(x, y)[a]) < Rank(Ties(x, y)[b]))
  {
    var sc := WidthScores(x, y);
    var m := SeqMin(sc);
    CountEqMember(sc, m);
    NamesAtSpec(sc, m, 0);
    assert sc[0..] == sc;
    if CountEq(sc, m) > 1 {
      var t := NamesAt(sc, m, 0);
      NamesAtFirst(sc, m, ChosenIndex(x, y));
      forall i | 0 <= i < 4 && WidthNames[i] in t ensures sc[i] == m {
        var a :| 0 <= a < |t| && t[a] == WidthNames[i];
        RankOfName(i);
      }
    }
  }

  class Mgm {
    var cutoffR: real
    var cutoffS: real

    constructor ()
      ensures cutoffR == 0.0 && cutoffS == 0.0
    {
      cutoffR := 0.0;
      cutoffS := 0.0;
    }

    /** fit_disk_data: try every width and every unit-step position, keep per
        width the last pair with the lowest score, adopt the pair of the first
        width whose best is the overall minimum, and report tied widths. */
    method FitDiskData(x: seq<real>, y: seq<int>) returns (ties: seq<string>)
      requires 0 < |x| == |y|
      modifies this
      ensures cutoffR == ChosenFit(x, y).cutoffR && cutoffS == ChosenFit(x, y).cutoffS
      ensures ties == Ties(x, y)
    {
      var bestScore, bestCutoffs := BestPerWidth(x, y);
      var scores := bestScore[..];
      assert scores == WidthScores(x, y) by {
        forall j | 0 <= j < 4 ensures scores[j] == WidthBest(x, y, j).score {
          assert Holds(bestScore, bestCutoffs, j, WidthBest(x, y, j));
        }
      }
      var single := SeqMin(scores);
      var best := FirstArgMin(scores);
      assert Holds(bestScore, bestCutoffs, best, WidthBest(x, y, best));
      cutoffR := bestCutoffs[best, 0];
      cutoffS := bestCutoffs[best, 1];
      if CountEq(scores, single) > 1 {
        ties := NamesAt(scores, single, 0);
      } else {
        ties := [];
      }
    }
  }

  /** The outer loop of fit_disk_data: row i of the two arrays holds the
      best score and pair of width number i. */
  method BestPerWidth(x: seq<real>, y: seq<int>) returns (bestScore: array<real>, bestCutoffs: array2<real>)
    requires 0 < |x| == |y|
    ensures fresh(bestScore) && fresh(bestCutoffs)
    ensures bestScore.Length == 4 && bestCutoffs.Length0 == 4 && bestCutoffs.Length1 == 2
    ensures forall j :: 0 <= j < 4 ==> Holds(bestScore, bestCutoffs, j, WidthBest(x, y, j))
  {
    bestScore := new real[4](_ => 1.0);
    bestCutoffs := new real[4, 2]((_, _) => 0.0);
    for i := 0 to 4
      invariant forall j :: 0 <= j < i ==> Holds(bestScore, bestCutoffs, j, WidthBest(x, y, j))
    {
      var b := SearchWidth(x, y, i);
      bestScore[i] := b.score;
      bestCutoffs[i, 0] := b.cutoffR;
      bestCutoffs[i, 1] := b.cutoffS;
    }
  }

  /** Row i of the two best-so-far arrays holds b. */
  ghost predicate Holds(bestScore: array<real>, bestCutoffs: array2<real>, i: nat, b: Best)
    reads bestScore, bestCutoffs
  {
    i < bestScore.Length && i < bestCutoffs.Length0 && 2 <= bestCutoffs.Length1
    && bestScore[i] == b.score && bestCutoffs[i, 0] == b.cutoffR && bestCutoffs[i, 1] == b.cutoffS
  }

  /** The inner while loop of fit_disk_data for width number i: starting from
      the initial row (score 1, cutoffs 0), it moves the pair up one unit at a
      time while R <= max(x) and keeps a pair whose score does not exceed the
      best so far. */
  method SearchWidth(x: seq<real>, y: seq<int>, i: nat) returns (best: Best)
    requires 0 < |x| == |y| && i < 4
    ensures best == WidthBest(x, y, i)
  {
    var lo, hi := SeqMin(x), SeqMax(x);
    var width := AllowedWidths[i];
    var r := lo;
    var s := r + width;
    best := Best(1.0, 0.0, 0.0);
    ghost var k: nat := 0;
    ghost var n := CandidateCount(x);
    while r <= hi
      invariant k <= n
      invariant r == lo + k as real && s == r + width
      invariant best == BestOfWidth(x, y, width, k)
      decreases n - k
    {
      var current := ScoreDiskFit(x, y, s, r);
      CandidateAt(x, y, width, k, r, s);
      if current <= best.score {
        best := Best(current, r, s);
      }
      r := r + 1.0;
      s := s + 1.0;
      k := k + 1;
    }
    assert lo + (n - 1) as real <= hi < lo + n as real;
    assert k == n;
  }
}
