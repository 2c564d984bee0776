# disk_fitter in Dafny

disk_fitter helps microbiologists choose disk-diffusion breakpoints. Its input is a table of isolates, each with a reference MIC (minimum inhibitory concentration, mg/L) and either a disk zone diameter (mm) or a second MIC from an alternate method. The MIC breakpoints S and R sort each isolate into susceptible, intermediate or resistant. The program then does three things:

- It searches for disk cutoffs that reproduce those categories best. The `mgm` engine does this by an exhaustive scan over integer-spaced windows, scored by a weighted Gini impurity.
- It counts the very major, major and minor errors of any cutoffs. It can break those counts down into MIC bands, or build a 3x3 confusion matrix.
- It formats the tables shown beside the plot and the exported report.

The repository contains two applications that share the engine:

- The **model-object application** (`scripts/model_object.py`, `data_processing.py`, `generate_tabletext.py`, `disk_plotting.py`) keeps its state in a `model_parameter_set`.
- The **Disk Masher application** keeps its state in the main window (`scripts/main.py`). main.py imports its logic from `scripts/modeler.py`, `scripts/plotting.py` and `scripts/data_export.py`. `DISKMASHER/modeler.py` and `DISKMASHER/data_export.py` are older modules written against the same window fields, and the model runs them on main.py's window state.

The variants of the detector, of label derivation and of classification differ in small ways. Each is modelled on its own, and lemmas state where they differ.

Modules, one per source file:

| module | file | source |
|---|---|---|
| `Common` | common.dfy | values shared by all modules: `Entry` (a value `float()` accepts or refuses), `Outcome` (returned value or escaping exception), symbolic table text, the MIC bins |
| `ModelCore` | model_core.dfy | scripts/model_core.py, class `Mgm` |
| `ModelObject` | model_object.dfy | scripts/model_object.py, class `ModelParameterSet` |
| `DataProcessing` | data_processing.dfy | scripts/data_processing.py |
| `Masher` | masher.dfy | the main window's state (scripts/main.py), class `DiskMasher`, and DISKMASHER/modeler.py |
| `Modeler` | modeler.dfy | scripts/modeler.py |
| `TableText` | generate_tabletext.dfy | scripts/generate_tabletext.py |
| `DiskPlotting` | disk_plotting.dfy | scripts/disk_plotting.py |
| `Plotting` | plotting.dfy | scripts/plotting.py |
| `DataExport` | data_export.dfy | DISKMASHER/data_export.py |

Conventions:

- User-entered cutoffs and imported values are `Entry` values, so every `float()` guard of the source is modelled.
- The Disk Masher frame also keeps its disk column as pandas holds it (`Held`). That is numbers, or text throughout when `float()` refuses an entry. The export sorts, looks up and prints the zones without converting them, so it works on that view.
- A Python exception that escapes a function becomes `Raised(<exception class>)`. A message the function returns becomes `Returned(message)`.
- Numbers are reals. `str()` of a number and `round(x, 2)` stay symbolic as `Piece`s (`IntStr`, `FloatStr`, `RoundStr`). `round()` to an integer is defined exactly, as round-half-to-even.
- I/O is not modelled. The dataset comes from the object's fields. Whether the export file can be opened is a parameter.

Where the code and the design description differ, the model follows the code:

- Within one window width, the `<=` comparison keeps the **last** candidate among those tied at the lowest score, not the first (`ModelCore.BestIsLastMinimum`).
- Several operations raise instead of returning a failure:
  - `len(None)` without a dataset;
  - division by zero for an empty MIC-vs-MIC dataset;
  - `np.min`/`np.max` of an empty array;
  - `list.index` of a value that is not a standard MIC.

  These appear as `Raised` outcomes.
- The MIC-vs-MIC snapping loop of `scripts/modeler.py` is unreachable, because `fit_data` returns early for MIC data. Its loop is modelled on its own.

## Model

| member | source | states |
|---|---|---|
| Common.BinsIncreasing | scripts/generate_tabletext.py:43 | the sixteen standard MIC values, and the fifteen without 0.125, are strictly increasing |
| Common.IndexOf | scripts/generate_tabletext.py:44-47 | `list.index`: the first position holding the value, and no result exactly when the value is absent (the ValueError case) |
| Common.SeqMin | scripts/model_core.py:21 | `np.min`: an element of the array that is no larger than any element |
| Common.SeqMax | scripts/model_core.py:23 | `np.max`: an element of the array that is no smaller than any element |
| Common.BinStr | scripts/generate_tabletext.py:43-53 | `str()` of a standard value: an int's text ('4') for the whole values 1 to 256 the list writes as ints, a float's text otherwise |
| Common.HeldLessStrictTotal | DISKMASHER/data_export.py:22-23 | the order `np.unique` sorts a column by (numbers by value, text by code point) is irreflexive and total |
| Common.HeldLessTransitive | DISKMASHER/data_export.py:22-23 | that order is transitive |
| Common.Clip | DISKMASHER/data_export.py:26 | `np.clip`: the result lies in [lo, hi]; it is the value itself inside, lo below and hi above |
| Common.MicValueCount | scripts/modeler.py:18-21 | the number of standard MIC values in a column never exceeds its length |
| Common.CountMicValues | scripts/modeler.py:17-21 | the `likely_mic_values` loop counts exactly the values of the column that are standard MIC values |
| Common.AllMicValuesCount | scripts/modeler.py:17-23 | when every value is a standard MIC value, all of them are counted |
| ModelCore.Count | scripts/model_core.py:11-13 | the number of samples with a label never exceeds the population |
| ModelCore.CountSum | scripts/model_core.py:11-13 | the counts of labels 0, 1 and 2 add up to at most the population, and exactly to it when every label is in {0, 1, 2} |
| ModelCore.ImpurityBounds | scripts/model_core.py:14 | 1 − p2² − p1² − p0² lies in [0, 1], and is at most 2/3 when the three counts cover the population |
| ModelCore.GiniBounds | scripts/model_core.py:10-14 | `gini` of a non-empty population lies in [0, 1], and in [0, 2/3] for labels in {0, 1, 2} |
| ModelCore.GiniPure | scripts/model_core.py:10-14 | a population of a single label from {0, 1, 2} has gini 0 |
| ModelCore.GiniEvenSplit | scripts/model_core.py:10-14 | a population split evenly over the three labels has gini 2/3, the largest possible |
| ModelCore.Subset | scripts/model_core.py:46-49 | a region's labels, taken in index order, are at most as many as the samples, and stay within {0, 1, 2} when the labels do |
| ModelCore.SubsetCounts | scripts/model_core.py:46-53 | a region's label list has as many entries as samples in the region, and per label as many as the region holds |
| ModelCore.TermIsWeightedGini | scripts/model_core.py:51-53 | each region adds (region size / n) × gini(region labels), and nothing when it is empty |
| ModelCore.TermBounds | scripts/model_core.py:51-53 | each region's contribution lies between 0 and its share of the population, and is at most 2/3 of that share for labels in {0, 1, 2} |
| ModelCore.ScoreBounds | scripts/model_core.py:44-54 | `score_disk_fit` is never negative; for R < S it is at most 1, and at most 2/3 for labels in {0, 1, 2} |
| ModelCore.SharesPartition | scripts/model_core.py:46-49 | for R < S and a non-empty population, the three region shares add up to 1 |
| ModelCore.PartitionSizes | scripts/model_core.py:46-49 | for R < S, the sizes of regions {x ≥ S}, {x ≤ R} and {R < x < S} add up to len(x) |
| ModelCore.PartitionIndices | scripts/model_core.py:46-49 | for R < S, the three index sets are pairwise disjoint and together hold every index |
| ModelCore.CandidateCount | scripts/model_core.py:21-23 | the number k of R candidates min(x), min(x)+1, … satisfies min(x)+(k−1) ≤ max(x) < min(x)+k, and k ≥ 1 |
| ModelCore.FirstArgMin | scripts/model_core.py:33 | `np.argmin`: the index of a minimal score, with every earlier score strictly larger |
| ModelCore.BestIsLastMinimum | scripts/model_core.py:20-31 | once a width has tried at least one candidate, its kept row is a candidate of that width, not the initial row with score 1: the candidate with the lowest score, and the last one among those tied |
| ModelCore.LastMinimumStep | scripts/model_core.py:26-29 | a new candidate becomes the kept one when its score does not exceed the best so far; otherwise the best stays |
| ModelCore.WidthBestWindow | scripts/model_core.py:20-31 | a width's best pair is exactly that width apart, its R lies in [min(x), max(x)], and its score is the lowest of the width's candidates |
| ModelCore.ChosenFitWindow | scripts/model_core.py:32-35 | the adopted pair belongs to the first width whose best is the overall minimum: S − R is that width, min(x) ≤ R ≤ max(x), no width scores lower and every earlier width scores strictly higher |
| ModelCore.NamesAtSpec | scripts/model_core.py:37-38 | the comprehension lists, in ascending width order and once each, exactly the widths whose score equals the minimum |
| ModelCore.NamesAtFirst | scripts/model_core.py:37-38 | the first width listed is the first width whose score equals the minimum |
| ModelCore.CountEqMember | scripts/model_core.py:36 | the minimum score is attained by at least one width |
| ModelCore.TiesReport | scripts/model_core.py:36-40 | the result is [] exactly when one width alone attains the minimum; otherwise it names every tied width once, in ascending order, led by the adopted width |
| ModelCore.Mgm.constructor | scripts/model_core.py:6-8 | both cutoffs start at 0 |
| ModelCore.Mgm.FitDiskData | scripts/model_core.py:16-40 | `fit_disk_data` leaves in cutoff_R/cutoff_S the pair of the first width with the lowest best score, and returns the tie list (its properties are ChosenFitWindow and TiesReport) |
| ModelCore.BestPerWidth | scripts/model_core.py:17-31 | after the loop over the four widths, row i of the best-score and best-cutoff arrays holds width i's best score and pair |
| ModelCore.SearchWidth | scripts/model_core.py:21-31 | the while loop for one width ends with the running best over every candidate R ≤ max(x), which starts from score 1 with cutoffs 0 |
| ModelObject.CheckIsError | scripts/model_object.py:239-248 | each of the four cases holds exactly: no error iff the categories are equal; minor iff they differ and one of them is intermediate; very major iff actual R and predicted S; major iff actual S and predicted R |
| ModelObject.Record | scripts/model_object.py:139-141 | recording an error adds 1 to that kind only; 'no error' changes nothing; num_strains is kept |
| ModelObject.PrefixStep | scripts/model_object.py:114-157 | one more sample extends the tables by one loop pass, and the wrong and twofold counts by that sample's share |
| ModelObject.StepFacts | scripts/model_object.py:116-157 | one pass keeps the overall num_strains, adds 1 to exactly the band holding the sample, keeps the band/overall consistency, and adds 1 to the overall errors exactly when the sample is mispredicted |
| ModelObject.CountFacts | scripts/model_object.py:137-157 | counting a sample in band b changes only b's num_strains (by 1) and records the same error in b and overall |
| ModelObject.TallySizes | scripts/model_object.py:96-157 | after the pass over a dataset of n samples, the overall num_strains is n, the band sizes add up to the samples, and each band holds exactly the samples whose MIC lies in it |
| ModelObject.TallyTotals | scripts/model_object.py:96-157 | the overall num_strains stays n and the band sizes add up to the samples seen |
| ModelObject.TallyBands | scripts/model_object.py:137-151 | each band's num_strains is the number of MICs in that band |
| ModelObject.TallyErrors | scripts/model_object.py:137-157 | for each error kind, the overall count is the sum of the three band counts; no band has more errors than strains; the overall errors are the mispredicted samples, so at most num_strains |
| ModelObject.TallyConsistent | scripts/model_object.py:137-157 | the band tables add up to the overall table kind by kind, and no band has more errors than strains |
| ModelObject.TallyWrong | scripts/model_object.py:155-157 | the overall table records one error per mispredicted sample |
| ModelObject.BandCategory | scripts/model_object.py:137-151 | for S < R, the band '>=I+2' holds only resistant strains and '<=I-2' only susceptible ones, and 'I+1 to I-1' is exactly S ≤ mic ≤ R |
| ModelObject.ErrorConditions | scripts/model_object.py:116-128 | a very major error needs mic ≥ R and a susceptible prediction (disk ≥ xS in disk mode, alternate MIC ≤ xS and < xR in MIC-vs-MIC mode); a major error needs mic ≤ S and a resistant prediction |
| ModelObject.CategoriesMonotone | scripts/model_object.py:116-128 | a larger MIC never gives a more susceptible actual category; a larger zone never gives a more resistant disk prediction; a larger alternate MIC never gives a more susceptible prediction (lines 179-184) |
| ModelObject.CountBounds | scripts/model_object.py:210-221 | the numbers of wrong predictions and of predictions within twofold never exceed the number of samples |
| ModelObject.AgreementBounds | scripts/model_object.py:224-225 | essential and categorical agreement lie in [0, 100], and categorical agreement is 100 exactly when no prediction is wrong |
| ModelObject.ModelParameterSet.constructor | scripts/model_object.py:15-52 | no dataset; cutoffs 4, 16, 32 and 12; a fresh engine at 0/0; the default strain name; both flags off; all tables zero; agreements 0 |
| ModelObject.ModelParameterSet.UpdateErrorTables | scripts/model_object.py:88-107 | a non-numeric cutoff returns the message and changes nothing; with no dataset `len(None)` raises, with nothing changed; otherwise the four tables are those of a pass over every sample in the chosen mode. Disk mode keeps both agreements. MIC mode sets both agreements, or raises ZeroDivisionError on an empty dataset. Settings are never changed |
| ModelObject.ModelParameterSet.ResetTables | scripts/model_object.py:96-100 | overall num_strains = n, every other count zero, all else kept |
| ModelObject.ModelParameterSet.CountSample | scripts/model_object.py:114-157 | one loop pass: the sample's error kind is returned, its band counts it and records the error, and the overall table records the error |
| ModelObject.ModelParameterSet.UpdateErrorForDiskData | scripts/model_object.py:111-157 | the tables become those of the disk-mode pass over the whole dataset; agreements and settings are kept |
| ModelObject.ModelParameterSet.UpdateErrorForMicVsMicData | scripts/model_object.py:162-225 | the tables become those of the alternate-MIC pass. Essential agreement = 100 × twofold / n and categorical agreement = 100 − 100 × wrong / n; n = 0 raises ZeroDivisionError with both left 0 |
| ModelObject.ModelParameterSet.MicVsMicPass | scripts/model_object.py:171-221 | the loop returns the number of mispredicted samples and of samples with 0.5·mic ≤ x ≤ 2·mic, along with the tables of the pass |
| DataProcessing.Label | scripts/data_processing.py:12-17 | label 0 iff mic ≥ R; label 2 iff mic < R and mic ≤ S; otherwise 1 |
| DataProcessing.ProcessTraindata | scripts/data_processing.py:5-21 | one label per MIC, in order and within {0, 1, 2}; x is the disk column unchanged |
| DataProcessing.DegenerateMissesAClass | scripts/data_processing.py:67 | on labels in {0, 1, 2}, `max < 2 or min > 0` holds exactly when label 2 or label 0 is missing |
| DataProcessing.DegenerateMeaning | scripts/data_processing.py:66-70 | in terms of the MICs: the data are refused exactly when no strain is resistant or no strain is susceptible |
| DataProcessing.TieMessage | scripts/data_processing.py:77-80 | '0' exactly when there are no tied widths, else '!, ' followed by the widths joined by ', ' |
| DataProcessing.FitData | scripts/data_processing.py:23-80 | the guards in source order. Non-numeric MIC cutoffs, no dataset, and the manual path each return their message with nothing changed. MIC-vs-MIC mode copies the MIC cutoffs into the x cutoffs. An empty dataset raises. Degenerate labels return the message with nothing changed. Otherwise the engine's fit becomes the x cutoffs and the ties the message. Only the x cutoffs ever change |
| Masher.DiskMasher.constructor | scripts/main.py:13-23 | an empty dataset (two empty columns); MIC cutoffs 4/16; disk cutoffs 32/12; both flags off; a zero 3x3 confusion matrix; zero error counts |
| Masher.DetermineDataType | DISKMASHER/modeler.py:6-22 | the detector of this variant: non-numeric or negative columns are reported with kind 'disk'; min < 1 or max > 60 means MIC; otherwise MIC needs strictly more than 90% of the values among the fifteen standard values; an empty column raises |
| Masher.LegacyDetectionCodes | DISKMASHER/modeler.py:6-22 | only the empty column raises; an error message always comes with kind 'disk' and is one of the two messages; a MIC verdict always carries '0' |
| Masher.LegacyStandardValuesAreMic | DISKMASHER/modeler.py:15-21 | a non-empty column of standard MIC values is detected as MIC data |
| Masher.SplitLabel | DISKMASHER/modeler.py:28-36 | ysuscep is 1 iff mic < S; yresist is 1 iff mic ≥ S and mic ≥ R; the pair is never (1, 1) |
| Masher.LegacyProcessTraindata | DISKMASHER/modeler.py:24-40 | raises exactly when a MIC is not numeric; otherwise both label lists are as long as the dataset, row i carries SplitLabel of MIC i, and x is the disk column |
| Masher.OneDistinctValue | DISKMASHER/modeler.py:61 | `np.unique(y).shape[0] == 1` holds exactly when y is non-empty and constant |
| Masher.FitDataGuard | DISKMASHER/modeler.py:42-65 | the cutoff message on a cutoff parse failure and the processing message on a MIC parse failure. The degenerate message exactly when every MIC lies on one side of S, or on one side of the resistant test. Otherwise it proceeds with the training data, both label vectors non-constant |
| Masher.SingleValuedMeaning | DISKMASHER/modeler.py:61-65 | a label vector is constant exactly when every MIC lies on the same side of the breakpoint it separates |
| Masher.CellCount | DISKMASHER/modeler.py:129 | a confusion-matrix cell never counts more rows than the data has |
| Masher.AddToMatrix | DISKMASHER/modeler.py:129 | row i adds 1 to the cell of its actual and predicted category, so the matrix counts the rows before i + 1 |
| Masher.Tabulate | DISKMASHER/modeler.py:110-160 | the loop builds a fresh matrix whose cell [a, p] counts the rows with actual a and predicted p, and error counts that follow check_is_error row by row |
| Masher.UpdateErrorTables | DISKMASHER/modeler.py:102-160 | a cutoff parse failure raises with nothing changed. A text column raises at the first row, with matrix and counts zeroed. Otherwise a fresh confusion matrix and error counts over every row. Dataset, cutoffs and flags are kept |
| Masher.MatrixCountsEveryRow | DISKMASHER/modeler.py:115-129 | exactly one cell is incremented per row, so the matrix sums to the number of rows |
| Masher.ErrorsFromMatrix | DISKMASHER/modeler.py:129-136 | very major = cm[2,0], major = cm[0,2], and minor = cm[0,1] + cm[1,0] + cm[1,2] + cm[2,1] |
| Masher.SusceptibleBoundaryDiffers | DISKMASHER/modeler.py:116-121 | a MIC equal to S is intermediate here, but susceptible in the model object; the two agree on every other MIC |
| Modeler.DetermineDataType | scripts/modeler.py:5-25 | non-numeric or negative columns are reported with kind 'disk'; min < 0.12 or max > 60 means MIC; otherwise MIC iff at least 90% of the values are among the sixteen standard values; an empty column raises |
| Modeler.DetectionCodes | scripts/modeler.py:5-25 | only the empty column raises; an error message always comes with kind 'disk' and is one of the two messages; a MIC verdict always carries '0' |
| Modeler.StandardValuesAreMic | scripts/modeler.py:17-24 | a non-empty column of standard MIC values is detected as MIC data |
| Modeler.DetectorsDisagreeBelowOne | scripts/modeler.py:12-13 | on the column [0.5, 10] this detector says disk and the DISKMASHER one says MIC |
| Modeler.ProcessTraindata | scripts/modeler.py:27-43 | raises exactly when a MIC is not numeric; otherwise the labels are those of data_processing and x is the raw disk column |
| Modeler.FitData | scripts/modeler.py:45-86 | MIC data returns the not-supported message before anything else; then the guards in source order, each with nothing changed. An empty dataset raises, and text disks raise TypeError in the engine. Otherwise the engine's fit becomes the disk cutoffs and the ties the message. Only the disk cutoffs ever change |
| Modeler.FitLabelled | scripts/modeler.py:63-86 | given the labels: degenerate labels return the message, text disks raise, and otherwise the fit is adopted |
| Modeler.AdoptFit | scripts/modeler.py:71-86 | the engine's cutoffs are those of the chosen fit, they become the window's disk cutoffs, and the tie list becomes the message |
| Modeler.SetDiskCutoffs | scripts/modeler.py:72-73 | the window's disk cutoffs take the engine's values; nothing else changes |
| Modeler.TieText | scripts/modeler.py:83-86 | the text of data_processing: '0' without ties, else '!, ' and the widths joined by ', ' |
| Modeler.SnapToMicBins | scripts/modeler.py:74-80 | on the sixteen standard values, R rounds up to the least standard value ≥ R and S down to the greatest ≤ S; values outside [0.016, 256] stay |
| Modeler.SnapLoop | scripts/modeler.py:76-80 | the same over any increasing list of bins |
| Modeler.SnapStep | scripts/modeler.py:77-80 | pass i moves R exactly when R ∈ (bins[i−1], bins[i]], and S exactly when S ∈ [bins[i−1], bins[i]); a cutoff moved earlier is not moved again |
| Modeler.RoundedUpMeaning | scripts/modeler.py:77-78 | the value the loop leaves in R is the least bin ≥ R when R lies within the bins, and R otherwise |
| Modeler.RoundedDownMeaning | scripts/modeler.py:79-80 | the value the loop leaves in S is the greatest bin ≤ S when S lies within the bins, and S otherwise |
| TableText.GenerateNextLine | scripts/generate_tabletext.py:3-18 | six cells: caption, range, str(num_strains), then either three '0 (0)' cells (no strains) or each error count with round(100 × count / num_strains, 2) |
| TableText.PercentagesBounded | scripts/generate_tabletext.py:7-15 | when a table has no more errors than strains, the three percentages lie in [0, 100] and add up to at most 100 |
| TableText.ShareBounded | scripts/generate_tabletext.py:8-9 | 100 × count / n lies in [0, 100] for count ≤ n |
| TableText.ShareSum | scripts/generate_tabletext.py:7-15 | the three percentages add up to the percentage of the total |
| TableText.MicCaption | scripts/generate_tabletext.py:43-53 | raises exactly when S or R is not one of the sixteen standard values; otherwise it is the MIC range text |
| TableText.DiskIntermediate | scripts/generate_tabletext.py:33-41 | the intermediate part is shown exactly when S > R + 1, with bounds R + 1 and S − 1, which are in order exactly when S ≥ R + 2 |
| TableText.MicIntermediate | scripts/generate_tabletext.py:43-53 | the MIC intermediate part is shown exactly when index(R) > index(S) + 1; its bounds are the first standard value above S and the last below R |
| TableText.Between | scripts/generate_tabletext.py:46-47 | positions i + 1 and k − 1 bound the bins strictly between bins[i] and bins[k] |
| TableText.TableRows | scripts/generate_tabletext.py:25-62 | 7 rows in disk mode and 9 in MIC-vs-MIC mode, each of 6 cells. Row 4 carries the breakpoint caption. Rows 4-7 carry 'Total', '>=I+2', 'I+1 to I-1' and '<=I-2' with the strain counts of the four tables in that order. The extra rows carry the two agreements rounded to two places |
| TableText.HeaderRows | scripts/generate_tabletext.py:25-32 | three heading rows of six cells each |
| TableText.BandRows | scripts/generate_tabletext.py:54-57 | the four band rows are generate_next_line of the overall, i+2, i+1..i−1 and i−2 tables in that order, the caption only on the first |
| TableText.AgreementRows | scripts/generate_tabletext.py:58-62 | two rows of six cells carrying round(essential, 2) and round(categorical, 2) |
| TableText.GenerateCelltext | scripts/generate_tabletext.py:22-63 | raises exactly when an x cutoff is not numeric, or in MIC mode when it is not a standard value; otherwise the rows with the caption of the mode |
| DiskPlotting.CheckCutoffs | scripts/disk_plotting.py:23-37 | the MIC breakpoints are converted outside the try block: a non-numeric one raises. An MIC breakpoint outside [0.06, 120] gives its message. An x cutoff that does not parse gives the non-numeric message, and one outside [0.12, 64] the disk message, checked in the order xS, xR. '0' exactly when all four are valid |
| DiskPlotting.SnapSusceptibleMic | scripts/disk_plotting.py:66-73 | for 0.016 ≤ S < 256 the line is drawn at the least standard value strictly above S (an exact bin moves up one); otherwise at S |
| DiskPlotting.RaiseToNextBin | scripts/disk_plotting.py:70-73 | the loop with `break`, over any increasing bins, gives that value |
| DiskPlotting.RoundedCutoffS | scripts/disk_plotting.py:91-95 | for xS ≤ 128 raises exactly when xS is not one of the fifteen values, and otherwise gives the next standard value, the least one above xS; above 128 it gives 256 |
| DiskPlotting.EighthAcceptedByTableOnly | scripts/disk_plotting.py:91-93 | a MIC-vs-MIC cutoff of 0.125 passes the range check and is a standard value for the table text, yet raises on the line position |
| DiskPlotting.GenPlot | scripts/disk_plotting.py:21-95 | failed checks return their message (or raise) with nothing changed; no dataset returns the plotting message; otherwise the tables are recomputed, then the table text and both line positions are produced, or the first exception escapes |
| Plotting.CheckCutoffs | scripts/plotting.py:21-33 | all four values are converted first: any failure gives the non-numeric message. Otherwise range checks in the order MIC S, MIC R, disk S, disk R with their messages; '0' exactly when all four are valid |
| Plotting.ChecksAgreeOnNumbers | scripts/plotting.py:21-33 | on four numbers this check and the model-object one give the same answer |
| Plotting.ChecksDifferOnParseOrder | scripts/plotting.py:21-23 | they differ once a disk value does not parse and a MIC breakpoint is out of range |
| Plotting.RoundCutoffs | scripts/plotting.py:65-71 | each cutoff strictly between two standard values becomes the least standard value above it; exact standard values and values outside [0.016, 256] are unchanged; S and R are rounded independently |
| Plotting.RoundUpLoop | scripts/plotting.py:67-71 | the loop gives that value over any increasing list of bins |
| Plotting.FiresMeaning | scripts/plotting.py:68-71 | the loop assigns exactly when the cutoff lies strictly between two bins, and then the assigned bin is the least bin above it |
| Plotting.GenerateCelltext | scripts/plotting.py:10-15 | three rows of three cells, row i being row i of the confusion matrix, with the labels Susceptible, Intermediate and Resistant |
| DataExport.Ceil | DISKMASHER/data_export.py:12 | `math.ceil`: the least integer not below x |
| DataExport.Round | DISKMASHER/data_export.py:12-17 | `round()`: an integer within 1/2 of x, floor or floor + 1, even on a tie |
| DataExport.ResistantSign | DISKMASHER/data_export.py:14-15 | '<=' exactly when round(R) ≤ R, else '<' |
| DataExport.SusceptibleSign | DISKMASHER/data_export.py:12-13 | '>=' exactly when round(S) ≥ S, else '>' |
| DataExport.IntegralCutoffsInclusive | DISKMASHER/data_export.py:10-15 | whole-number cutoffs always get inclusive signs |
| DataExport.ResistantConditionExact | DISKMASHER/data_export.py:14-17 | the printed sign with round(R) selects exactly the whole-number zones at most R |
| DataExport.SusceptibleConditionExact | DISKMASHER/data_export.py:12-17 | the printed sign with round(S) selects exactly the whole-number zones at least S |
| DataExport.Insert | DISKMASHER/data_export.py:22-23 | inserting into an ascending list without duplicates keeps it ascending and adds exactly the new value |
| DataExport.Unique | DISKMASHER/data_export.py:22-23 | `np.unique`: strictly ascending (numbers by value, text by code point), holding exactly the values of the column |
| DataExport.OccursOnce | DISKMASHER/data_export.py:22-23 | a value of the unique list occurs in it once |
| DataExport.GridCountsEveryRow | DISKMASHER/data_export.py:24-28 | when every row's MIC and zone are found among the rows and columns, the grid sums to the number of rows |
| DataExport.ClipMics | DISKMASHER/data_export.py:26 | each MIC is clipped to [0.016, 256], and the length is kept |
| DataExport.CellStep | DISKMASHER/data_export.py:28 | a data row lands in the cell of its MIC and zone and in no other |
| DataExport.TallyGrid | DISKMASHER/data_export.py:22-28 | rows are the unique MICs before clipping and columns the unique zones as the frame holds them, numbers or text. The lookup succeeds exactly when every clipped MIC is a row; then each cell counts the rows with that clipped MIC and zone |
| DataExport.CountPairs | DISKMASHER/data_export.py:27-28 | the loop succeeds exactly when every MIC is found, and then cell [a, b] counts the rows with MIC a and zone b |
| DataExport.CountRow | DISKMASHER/data_export.py:28 | a row whose MIC is found adds 1 to its cell; a missing MIC is reported (list.index raises) |
| DataExport.ZoneColumn | DISKMASHER/data_export.py:28 | `disk_values.index` finds every zone: the position holds that zone |
| DataExport.AddPair | DISKMASHER/data_export.py:28 | one increment makes the grid count the rows before i + 1 |
| DataExport.GridLine | DISKMASHER/data_export.py:30-37 | a line starts with `str()` of its MIC, then one cell per zone: '' for zero, else the count |
| DataExport.GridLines | DISKMASHER/data_export.py:29-37 | one such line per MIC row, in order |
| DataExport.ZoneFooter | DISKMASHER/data_export.py:38 | an empty cell, then `str()` of each zone in order: the number, or the text itself |
| DataExport.ChartFromGrid | DISKMASHER/data_export.py:29-37 | the lines written from the grid are the chart of the pair counts |
| DataExport.Chart | DISKMASHER/data_export.py:22-38 | succeeds exactly when every clipped MIC is a row; then the lines are the chart and the footer lists the zones |
| DataExport.BuildReport | DISKMASHER/data_export.py:8-38 | the breakpoint text, the summary (strains and three error counts), the chart and the footer, or nothing when a clipped MIC is not a row |
| DataExport.ExportResults | DISKMASHER/data_export.py:4-43 | the export message whenever the file cannot be opened, a disk cutoff or a MIC is not numeric, or a clipped MIC is not a row; otherwise '0' and the report. The zones are the disk column as the frame holds it, so a text column is exported as text |

## Left out

- The Qt user interface: scripts/user_interface.py, scripts/alerts.py and the widgets and callbacks of scripts/main.py. Only the state of main.py's window object is modelled, as `Masher.DiskMasher`.
- `model_parameter_set.load_dataset` and all file reading. A loaded dataset is an `Option` field whose two columns have the same length, because that is what load_dataset guarantees.
- scripts/data_export.py, which is a histogram plus file writes.
- The classifier fits of DISKMASHER/modeler.py (lines 66-99). They call scikit-learn, which is foreign floating-point code. `Masher.FitDataGuard` stops where they begin.
- All matplotlib drawing: heatmaps, colormaps, `create_christmas_colormap`, axis ticks, the cutoff lines themselves (only their positions are modelled), and `mergecells`/`fix_table`.
- IEEE-754 arithmetic: values are reals, so equal scores tie exactly. `str()` of a float and `round(x, 2)` are kept symbolic rather than producing digits. The columns of main.py's frame are reals, so the export writes `str()` of each MIC and numeric zone as a float's text. A column pandas reads as int64 from a CSV of whole numbers prints as '12', not '12.0', and the model does not capture that difference.
- The `np.log`/`np.clip` block of scripts/disk_plotting.py's `gen_plot`. On data that `load_dataset` accepted, it can fail only when no dataset is loaded, and `DiskPlotting.GenPlot` models just that case.
- In scripts/plotting.py, everything of `gen_plot` after the checks except the rounding loop. That includes its `np.log`/`np.clip` block (lines 36-43), which reads main.py's frame as `pd.read_csv` loaded it and returns the "could not be plotted" message on a text column. It calls `modeler.update_error_tables`, which the scripts/modeler.py it imports does not define. The DISKMASHER variant of that function is modelled as `Masher.UpdateErrorTables`.
- The processing-error branch of `data_processing.fit_data` (lines 58-64). It cannot be reached, because load_dataset stores only floats.
- `Masher.DiskMasher.engine` does not exist in main.py. scripts/modeler.py's `fit_data` reads `current_model.model_engine` from the window, so the model gives the window an `engine` field.
- DataExport.ClipMics: clips each MIC as a real. When both CSV columns hold whole numbers, pandas makes the frame int64, and line 26 of DISKMASHER/data_export.py stores the float clip back into that int64 array, truncating it toward zero: an integer MIC of 0 or below is clipped to 0.016 and stored as 0. The model does not capture that truncation, because its frame does not record whether pandas read a column as int64.
- DataExport.ExportResults: in an all-integer frame, a MIC of 0 or below is looked up as 0, not 0.016. For MICs [0, 4] with zones [20, 12], the source finds row 0 and returns '0' with the chart, while the model looks up 0.016, finds no row and returns the export message. The same holds for a negative integer MIC when 0 is among the MICs. The model gives the source's result only when the frame is not all-integer or every MIC is at least 1.
- The in-place clip of `export_data[:, 0]` in `export_results`. It may write through to the loaded data frame. The model clips a copy, so that aliasing is not captured.
- The partial file `export_results` leaves behind when it fails midway, and the header line it writes. Whether the file can be opened is the `canOpen` parameter, and the text is returned as cells, not written.
- The `traceback.print_exc()` calls, the colour palette and the regression-type switch. They are output or UI settings with no effect on the modelled results.
- ModelCore.Mgm.FitDiskData: requires a non-empty dataset. On an empty one `np.min` raises ValueError before any state changes, and its callers (`DataProcessing.FitData`, `Modeler.FitData`) model that as `Raised("ValueError")`.
- Masher.DiskMasher.constructor: main.py starts from `pd.DataFrame()`, which has no columns at all. The model starts from two empty columns. From the column-less frame `export_results` raises KeyError at line 22 and returns its message, while `DataExport.ExportResults` returns '0' with an empty report. The model does not capture that case. In the application, main.py's column-count checks (lines 157 and 226) keep it from being reached.
