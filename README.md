# Customer segmentation: feature code and serving handlers in Dafny

This project models the core of a customer-segmentation model and proves
properties of it. The model is a normaliser, a one-component PCA projection
and a three-cluster k-means, trained and served as a SageMaker endpoint. The
modelled core has two parts:

- **The feature code** (`preprocessing.py`):
  - `calculate_derived_features` takes a batch of customer rows (Customer_ID,
    Age, Income, Purchases, Gender) and derives sixteen columns. It then drops
    Gender and Customer_ID. The derived columns are:
    - three age brackets;
    - the IS_MALE flag;
    - income and purchase quartile dummies from `pd.qcut(q=4)`, with the first
      quartile dropped;
    - Income/Age, Purchases/max, Age/(Income/1000) and Purchases/Age;
    - Income and Purchases divided by the mean of the row's gender group.
  - `get_numerical_features` is the list of nine continuous columns.
  - `prepare_features_for_training` splits the derived table into those nine
    columns and everything else.
  - `get_cluster_names` gives the default segment labels.
- **The serving handlers** (`inference.py`):
  - `input_fn` does content-type dispatch, reads the three JSON request shapes,
    checks the required columns and numbers the rows when Customer_ID is absent.
  - `predict_fn` runs the feature code, then the fitted estimators. It looks up
    each label under the cluster id's decimal text, takes the minimum distance
    per row and derives confidence as `1 / (1 + d)` in the results loop.
  - `output_fn` returns the response as JSON whatever the accept type.

Two details of `train.py` are also modelled, because serving depends on them.
First, the cluster-name map is written with `json.dump`, so its integer keys
come back as decimal strings. Second, the metadata record carries the
continuous feature list.

Files:

| file | module | contents |
|---|---|---|
| `values.dfy` | `Values` | JSON values as table cells; frames and tables; the error type; `Result`/`Option`; name-list helpers |
| `decimal.dfy` | `Decimal` | Python's `str(int)`, with a parse-back round trip and injectivity |
| `quantiles.dfy` | `Quantiles` | sorting, numpy's linear quantile, `pd.qcut(q=4)` edges and bin codes |
| `preprocessing.dfy` | `Preprocessing` | the feature code |
| `training.dfy` | `Training` | the persisted cluster-name map and metadata record |
| `inference.dfy` | `Inference` | `input_fn`, `predict_fn` (its loop as a method) and `output_fn` |

A pandas DataFrame is a value: a row count and ordered named columns whose
cells are JSON values. Two parts of the handlers are written imperatively, as
in the source:
- `input_fn`'s in-place Customer_ID assignment. This is a `DataFrame` class
  whose `AddColumn` method modifies the object.
- `predict_fn`'s results loop. This is the method `Collect`, with loop
  invariants.

Things the proofs establish about the source:

- **A single record is always rejected.** The sample client sends one JSON
  record. `input_fn` accepts it (`RawRecordFrame`). Then `pd.qcut` on a
  one-row Income column has five equal bin edges, so `predict_fn` can never
  answer that request (`SingleRecordRequestRejected`).
- **qcut refuses a batch only when its edges tie.** Every batch of two or
  more rows with pairwise-different values gets strictly increasing edges, so
  qcut accepts it (`DistinctBatchAccepted`), and the whole feature code then
  succeeds (`DeriveAccepts`). Any batch whose values are all equal is refused
  (`TiedBatchRejected`).
- **Non-Male rows use the Female mean.** Every row whose Gender is not exactly
  "Male" is divided by the Female mean. This includes rows with any other
  value.
- **Confidence is 1 exactly at distance 0.**
- **The continuous list has nine names.** The metadata written at training
  carries exactly these nine names.

## Model

| member | source | states |
|---|---|---|
| `Values.Get` | step2-model-build-deploy/src/inference.py:58-59 | `obj[key]` finds a value iff some field has the key, and the value found belongs to a field with that key |
| `Values.GetLastWins` | step2-model-build-deploy/src/inference.py:58-59 | when a key occurs more than once, `obj[key]` is the value of its last occurrence, as `json.loads` keeps it |
| `Values.FilterOut` | step2-model-build-deploy/src/inference.py:74 | the comprehension keeps exactly the names not in the drop set, in order (a subsequence), and keeps them distinct |
| `Values.DropNamed` | step2-model-build-deploy/src/preprocessing.py:90 | `df.drop(names, axis=1)` keeps a column iff it was in the frame and its name is not dropped; the kept names are the filtered names in frame order |
| `Values.Col` | step2-model-build-deploy/src/preprocessing.py:28 | `df[name]` returns the cells of a column of the frame carrying that name |
| `Values.Series` | step2-model-build-deploy/src/preprocessing.py:28 | on a table, `df[name]` has one cell per row and is a column of the table |
| `Decimal.NatToString` | step2-model-build-deploy/src/inference.py:109 | `str(n)` is a non-empty digit string with a leading zero only for 0 |
| `Decimal.IntToString` | step2-model-build-deploy/src/inference.py:109 | `str(i)` starts with '-' exactly when i is negative |
| `Decimal.NatRoundTrip` | step2-model-build-deploy/src/inference.py:109 | reading the digits of `str(n)` gives n back |
| `Decimal.RoundTrip` | step2-model-build-deploy/src/inference.py:109 | `int(str(i)) == i` for every integer |
| `Decimal.NegativeRoundTrip` | step2-model-build-deploy/src/inference.py:109 | the text of a negative number is '-' followed by the digits of its magnitude, and reads back to the number |
| `Decimal.Injective` | step2-model-build-deploy/src/inference.py:109 | different cluster ids have different key strings |
| `Quantiles.Insert` | step2-model-build-deploy/src/preprocessing.py:36-40 | inserting into a sorted sample keeps it sorted and adds exactly that value |
| `Quantiles.Sort` | step2-model-build-deploy/src/preprocessing.py:36-40 | the sample qcut interpolates over is sorted and a permutation of the column |
| `Quantiles.InterpBetween` | step2-model-build-deploy/src/preprocessing.py:36-40 | a linear quantile lies between the two samples around its position, strictly below the upper one without ties |
| `Quantiles.InterpMonotone` | step2-model-build-deploy/src/preprocessing.py:36-40 | quantiles at later positions are never smaller |
| `Quantiles.InterpStrictlyMonotone` | step2-model-build-deploy/src/preprocessing.py:36-40 | on a sample without ties, quantiles at later positions are strictly larger |
| `Quantiles.InterpEnds` | step2-model-build-deploy/src/preprocessing.py:36-40 | the 0 and 1 quantiles are the sample minimum and maximum |
| `Quantiles.Edges` | step2-model-build-deploy/src/preprocessing.py:36-40 | five edges, the first the sample minimum and the last its maximum |
| `Quantiles.EdgesOrdered` | step2-model-build-deploy/src/preprocessing.py:36-40 | the five quartile edges never decrease |
| `Quantiles.EdgesSpan` | step2-model-build-deploy/src/preprocessing.py:36-40 | the edges run from the column minimum to its maximum, are members of the column, and are all different iff strictly increasing |
| `Quantiles.Code` | step2-model-build-deploy/src/preprocessing.py:36-40 | the minimum edge gets the lowest code, and with increasing edges a value gets a code in 0..3 iff it lies within the edges |
| `Quantiles.CodeBin` | step2-model-build-deploy/src/preprocessing.py:36-40 | code k is exactly the right-closed bin (e[k], e[k+1]], the lowest bin also holding the minimum |
| `Quantiles.CodeMonotone` | step2-model-build-deploy/src/preprocessing.py:36-40 | a larger value never gets a lower quartile |
| `Quantiles.Qcut` | step2-model-build-deploy/src/preprocessing.py:36-40 | qcut succeeds iff the column is non-empty and its edges strictly increase; otherwise it fails with the non-unique-edges error; on success each value gets a code in 0..3 |
| `Quantiles.QcutBins` | step2-model-build-deploy/src/preprocessing.py:36-40 | each value's code is the bin it falls in, and codes are ordered like values |
| `Quantiles.TiedBatchRejected` | step2-model-build-deploy/src/preprocessing.py:36-40 | a column whose values are all equal (one row in particular) is rejected |
| `Quantiles.SortedWithoutTies` | step2-model-build-deploy/src/preprocessing.py:36-40 | sorting pairwise-different values gives a strictly increasing sample |
| `Quantiles.DistinctBatchAccepted` | step2-model-build-deploy/src/preprocessing.py:36-40 | two or more pairwise-different values always give distinct edges, so qcut accepts them |
| `Preprocessing.NameListsDistinct` | step2-model-build-deploy/src/preprocessing.py:95-101 | the derived names, the nine continuous names and the ten indicator names have no duplicates |
| `Preprocessing.Numbers` | step2-model-build-deploy/src/preprocessing.py:47 | a column used in arithmetic is missing (KeyError) or yields one number per row, read from its cells; it succeeds iff the column exists and every cell is a number, and otherwise fails with `NotNumeric` |
| `Preprocessing.Cells` | step2-model-build-deploy/src/preprocessing.py:33 | a column compared with a string fails only when missing, and is then the column's cells |
| `Preprocessing.Inputs` | step2-model-build-deploy/src/preprocessing.py:28-61 | the lookups and both qcuts run in source order and the first failure is the error; it succeeds iff Age, Income and Purchases are numeric, Gender exists and both qcuts accept; on success Age, Income and Purchases are read from their columns, and the codes are the qcut codes of Income and Purchases |
| `Preprocessing.MaxFrom` | step2-model-build-deploy/src/preprocessing.py:61 | the maximum of a suffix is one of its elements and no smaller than any of them |
| `Preprocessing.Max` | step2-model-build-deploy/src/preprocessing.py:61 | `Purchases.max()` is an element of the column and no smaller than any element |
| `Preprocessing.AgeIndicators` | step2-model-build-deploy/src/preprocessing.py:28-30 | each flag is 0 or 1, exactly one is 1 per row, chosen by Age <= 30, 30 < Age <= 50 and Age > 50 |
| `Preprocessing.MaleIndicator` | step2-model-build-deploy/src/preprocessing.py:33 | IS_MALE is 0 or 1, and 1 iff the Gender cell is the string "Male" |
| `Preprocessing.QuartileDummies` | step2-model-build-deploy/src/preprocessing.py:43 | the three dummies are the one-hot code of quartiles 2..4; all are 0 exactly in quartile 1 |
| `Preprocessing.Ratio` | step2-model-build-deploy/src/preprocessing.py:47 | each quotient times its divisor gives the dividend back |
| `Preprocessing.Thousands` | step2-model-build-deploy/src/preprocessing.py:65 | Income / 1000 times 1000 is Income |
| `Preprocessing.Intensity` | step2-model-build-deploy/src/preprocessing.py:60-62 | Purchase_Intensity times the batch maximum is the row's Purchases |
| `Preprocessing.NumericalFeatures` | step2-model-build-deploy/src/preprocessing.py:95-101 | nine names: Age, Income and Purchases, then six of the derived names |
| `Preprocessing.ClusterNames` | step2-model-build-deploy/src/preprocessing.py:130-136 | the default names are keyed by exactly the cluster ids 0, 1 and 2 |
| `Preprocessing.GroupMean` | step2-model-build-deploy/src/preprocessing.py:69-73 | the mean of an empty group is the 0.0 placeholder |
| `Preprocessing.GroupMeanTimesCount` | step2-model-build-deploy/src/preprocessing.py:69-73 | a non-empty group's mean times its size is its sum |
| `Preprocessing.Relative` | step2-model-build-deploy/src/preprocessing.py:76-87 | Male rows times the Male mean, and every other row times the Female mean, give the row's value back |
| `Preprocessing.Engineer` | step2-model-build-deploy/src/preprocessing.py:28-87 | every derived series has one entry per row; per row IS_MALE is 1 iff Gender is "Male", exactly one age bracket is set, the dummies are all 0 iff the row is in the first quartile, and the three age ratios times their divisors give Income, Purchases and Age back |
| `Preprocessing.EngineeredColumns` | step2-model-build-deploy/src/preprocessing.py:28-87 | the derived columns carry the sixteen names in the order they are added, one cell per row |
| `Preprocessing.Assemble` | step2-model-build-deploy/src/preprocessing.py:44-90 | the derived table keeps the row count, and its columns are the kept input columns followed by the sixteen derived columns, under those names |
| `Preprocessing.Kept` | step2-model-build-deploy/src/preprocessing.py:90 | the kept input columns are exactly those not named Gender or Customer_ID, in frame order |
| `Preprocessing.Derive` | step2-model-build-deploy/src/preprocessing.py:10-92 | a lookup or qcut error propagates; with no Customer_ID the final drop fails; otherwise the rows are kept and the names are the kept input names followed by the sixteen derived names, the kept columns unchanged |
| `Preprocessing.DeriveDropsOnlyGenderAndId` | step2-model-build-deploy/src/preprocessing.py:90 | Gender and Customer_ID are gone, and every other input column is still present, unchanged |
| `Preprocessing.DerivedRatios` | step2-model-build-deploy/src/preprocessing.py:47-87 | in the derived table the six ratio and relative columns are the numbers computed from the input's Age, Income, Purchases and Gender |
| `Preprocessing.DerivedIntensityBounds` | step2-model-build-deploy/src/preprocessing.py:60-62 | with no negative Purchases, every Purchase_Intensity cell of the derived table is a number in [0, 1], and 1 exactly on the rows holding the maximum |
| `Preprocessing.DerivedRatioIdentities` | step2-model-build-deploy/src/preprocessing.py:47-66 | in every row of the derived table Income_Age_Ratio times Age is Income, Purchase_Age_Ratio times Age is Purchases, and Age_Income_Ratio times Income_Age_Ratio is 1000 |
| `Preprocessing.DerivedRelativeMeanIsOne` | step2-model-build-deploy/src/preprocessing.py:69-87 | in the derived table both gender-relative columns average exactly 1 over the Male rows, and over the Female rows |
| `Preprocessing.DerivedIndicators` | step2-model-build-deploy/src/preprocessing.py:28-33 | in every row of the derived table the bracket columns are the Age flags (exactly one is set), and IS_MALE is the Gender flag |
| `Preprocessing.DerivedQuartileDummies` | step2-model-build-deploy/src/preprocessing.py:36-57 | the income and purchase dummy columns of every row are the one-hot code of that row's qcut bin |
| `Preprocessing.IntensityBounds` | step2-model-build-deploy/src/preprocessing.py:60-62 | for non-negative purchases, intensity is in [0, 1], and 1 exactly on the rows holding the maximum (at least one) |
| `Preprocessing.RatioIdentities` | step2-model-build-deploy/src/preprocessing.py:47-65 | on every row the quotient Age / (Income / 1000) times the quotient Income / Age is 1000 (`DerivedRatioIdentities` carries it to the table columns) |
| `Preprocessing.GroupSumScaled` | step2-model-build-deploy/src/preprocessing.py:69-87 | dividing each group member by m divides the group sum by m |
| `Preprocessing.RelativeMeanIsOne` | step2-model-build-deploy/src/preprocessing.py:69-87 | over the Male rows, and over the Female rows, the gender-relative ratio averages exactly 1 |
| `Preprocessing.RelativeInGroup` | step2-model-build-deploy/src/preprocessing.py:76-87 | within a non-empty Male or Female group each row is divided by its own group's mean, which is not zero |
| `Preprocessing.GroupMeanNonZero` | step2-model-build-deploy/src/preprocessing.py:69-73 | the mean of a non-empty Male or Female group is a divisor some row uses, so it is not zero |
| `Preprocessing.SingleRowBatchRejected` | step2-model-build-deploy/src/preprocessing.py:36-40 | a one-row batch with numeric Age and Income and a Gender is always rejected with the non-unique-edges error on Income |
| `Preprocessing.DeriveAccepts` | step2-model-build-deploy/src/preprocessing.py:10-127 | within the model's two standing requirements (`NoDerivedNames`: no input column carries a derived name; `DivisorsNonZero`: no division by zero), every batch of two or more rows with numeric Age, Income and Purchases, a Gender and a Customer_ID column, and pairwise-different Income and Purchases values is accepted by the feature code and by the split |
| `Preprocessing.Select` | step2-model-build-deploy/src/preprocessing.py:124 | `df[names]` has exactly the given names, in that order, each with the frame's cells for that name |
| `Preprocessing.Split` | step2-model-build-deploy/src/preprocessing.py:121-127 | the split fails iff a continuous name is missing, listing the missing ones; otherwise the continuous block has the nine names in order, the binary block has the filtered names in order, and every column lands in exactly one block |
| `Preprocessing.SplitPartition` | step2-model-build-deploy/src/preprocessing.py:124-125 | each column of the derived table is in the continuous block iff it is not in the binary block |
| `Preprocessing.SplitCount` | step2-model-build-deploy/src/preprocessing.py:124-125 | the two blocks together have as many columns as the derived table |
| `Preprocessing.PrepareFeatures` | step2-model-build-deploy/src/preprocessing.py:104-127 | a derive error propagates unchanged; it succeeds iff deriving succeeds, and the result is then the split of the derived table |
| `Preprocessing.DerivedHasContinuous` | step2-model-build-deploy/src/preprocessing.py:118-124 | a derived table holds every continuous name, so `df_derived[numerical_features]` never fails after a successful derive |
| `Preprocessing.PreparedBinaryBlock` | step2-model-build-deploy/src/preprocessing.py:118-125 | the binary block is the input columns other than Gender, Customer_ID and the continuous names, followed by the ten indicators |
| `Preprocessing.RawBatchBinaryBlock` | step2-model-build-deploy/src/preprocessing.py:118-125 | for a batch of only the five raw columns the binary block is exactly the ten indicators |
| `Preprocessing.IndicatorsAreTheRest` | step2-model-build-deploy/src/preprocessing.py:95-101 | the derived names outside the continuous list are exactly the ten indicator names, in order |
| `Training.PersistClusterNames` | step2-model-build-deploy/src/train.py:72-73 | after the JSON round trip each cluster id's name sits under `str(id)`, and every key comes from some id |
| `Training.StringItemsOfStrings` | step2-model-build-deploy/src/train.py:82 | a list of names written as JSON strings reads back as the same list |
| `Training.Metadata` | step2-model-build-deploy/src/train.py:76-84 | the record is an object whose `model_version` is "1.0" and whose `feature_names` is the list of the nine continuous names |
| `Training.MetadataFeatureNames` | step2-model-build-deploy/src/train.py:76-84 | the metadata's `feature_names` reads back as the nine continuous names |
| `Inference.AddKeys` | step2-model-build-deploy/src/inference.py:59-63 | appending a record's new keys keeps the earlier columns first, adds exactly the record's keys, and stays duplicate-free |
| `Inference.RecordKeys` | step2-model-build-deploy/src/inference.py:59-63 | the columns of a list of records are every key of every record, without duplicates; the columns of the earlier records come first |
| `Inference.FromRecords` | step2-model-build-deploy/src/inference.py:59-63 | one row per record, and each cell is that record's value for the column's key (missing gives null) |
| `Inference.RecordFrame` | step2-model-build-deploy/src/inference.py:59-61 | the frame is built iff the value is a list of records; it is then `FromRecords` of those records, so row i holds record i's values |
| `Inference.Contains` | step2-model-build-deploy/src/inference.py:58 | `'instances' in s` on a string is a substring test: it needs a string at least as long, and holds when the string starts with it |
| `Inference.DocumentFrame` | step2-model-build-deploy/src/inference.py:56-65 | an object with "instances" gives the record frame of that value, a list without "instances" gives its own record frame, and any other object gives the one-row frame `FromRecords([fields])`; a list holding "instances", or a document that is null, a bool or a number, is a type error; a string is a type error iff it contains "instances", else an unsupported format |
| `Inference.ParseBody` | step2-model-build-deploy/src/inference.py:55-70 | JSON and CSV bodies are decoded by their parser; any other content type, and only that, is rejected naming it |
| `Inference.MissingRequired` | step2-model-build-deploy/src/inference.py:73-74 | the missing names are exactly the required names the frame lacks, in required order; empty iff all are present |
| `Inference.RowIndex` | step2-model-build-deploy/src/inference.py:79 | `range(len(df))`: n ids, the i-th being i |
| `Inference.WithCustomerIds` | step2-model-build-deploy/src/inference.py:78-79 | a frame with Customer_ID is unchanged; otherwise one column `0..n-1` named Customer_ID is appended, the others untouched |
| `Inference.DataFrame.AddColumn` | step2-model-build-deploy/src/inference.py:79 | assigning a new column appends it last and leaves the row count and the other columns unchanged |
| `Inference.InputFn` | step2-model-build-deploy/src/inference.py:50-86 | parse errors propagate; missing required columns are reported all at once; otherwise the result is the frame with row numbers added, holding every required column and Customer_ID |
| `Inference.SingleRecordColumn` | step2-model-build-deploy/test/test.py:6-11 | each field of the sample record becomes a one-cell column with that value |
| `Inference.RecordColumn` | step2-model-build-deploy/src/inference.py:62-63 | a key of the single record becomes a one-cell column holding its value |
| `Inference.ColumnAfterIds` | step2-model-build-deploy/src/inference.py:78-79 | numbering the rows leaves every other column as it was |
| `Inference.HasBeforeIds` | step2-model-build-deploy/src/inference.py:78-79 | numbering the rows adds no column other than Customer_ID |
| `Inference.SingleRecordNames` | step2-model-build-deploy/src/inference.py:62-79 | the columns of a numbered single-record frame are the record's keys and Customer_ID |
| `Inference.RawNamesNotDerived` | step2-model-build-deploy/src/preprocessing.py:10-92 | a frame with only raw column names does not collide with any derived name |
| `Inference.SingleNumber` | step2-model-build-deploy/src/preprocessing.py:47 | a one-row column holding a number reads as numeric |
| `Inference.RawRecordAccepted` | step2-model-build-deploy/src/inference.py:62-76 | the sample record becomes a one-row frame that passes the required-column check |
| `Inference.RawRecordTable` | step2-model-build-deploy/src/inference.py:78-79 | the numbered frame of that record has one row, only raw names, a Gender column and numeric Age and Income |
| `Inference.RawRecordFrame` | step2-model-build-deploy/test/test.py:6-17 | the sample client's request passes `input_fn` and gives a one-row frame ready for the feature code |
| `Inference.SingleRecordRequestRejected` | step2-model-build-deploy/test/test.py:6-17 | the sample client's request is always rejected by the feature code with the non-unique-edges error, and so is its reduction for every fitted model |
| `Inference.AsNumber` | step2-model-build-deploy/src/inference.py:102-106 | the estimators read a number as itself and a boolean as 1 or 0, and nothing else |
| `Inference.RowOf` | step2-model-build-deploy/src/inference.py:102-106 | a row reads as numbers iff every one of its cells does, and then holds those numbers in column order |
| `Inference.Matrix` | step2-model-build-deploy/src/inference.py:102-106 | the estimator input exists iff every cell is numeric, with one row per record |
| `Inference.Reduced` | step2-model-build-deploy/src/inference.py:99-106 | a feature error propagates unchanged; a reduced batch exists iff the split succeeds and both blocks are numeric, with one row per input row |
| `Inference.Project` | step2-model-build-deploy/src/inference.py:102-106 | the transform succeeds iff both blocks are numeric, and otherwise fails with `NonNumericCell`; row i is the PCA projection of the normalised continuous row i followed by binary row i |
| `Inference.PreparedRows` | step2-model-build-deploy/src/inference.py:99 | both prepared blocks keep the input's row count |
| `Inference.MinOf` | step2-model-build-deploy/src/inference.py:112 | the row minimum is one of the distances and no larger than any |
| `Inference.MinDistances` | step2-model-build-deploy/src/inference.py:111-112 | per-row minima exist iff every row has a centre; each is a member of its row and no larger than any entry |
| `Inference.MinIsAssignedDistance` | step2-model-build-deploy/src/inference.py:107-112 | when the assigned centre is a nearest one, the reported distance is the distance to it |
| `Inference.Confidence` | step2-model-build-deploy/src/inference.py:119 | `1/(1+d)` is in (0, 1], times (1+d) is 1, and is 1 iff d = 0 |
| `Inference.ConfidenceDecreasing` | step2-model-build-deploy/src/inference.py:119 | a larger distance gives a strictly smaller confidence |
| `Inference.Label` | step2-model-build-deploy/src/inference.py:109 | the label is the name stored under `str(id)`, or "Cluster_" + `str(id)` when there is none |
| `Inference.LabelAfterPersist` | step2-model-build-deploy/src/inference.py:109 | after the training-time JSON round trip every named id gets its own name and every other id the fallback |
| `Inference.DefaultLabels` | step2-model-build-deploy/src/preprocessing.py:130-136 | with the default names, clusters 0, 1 and 2 are Old, Middle Aged and Young, and 3 is Cluster_3 |
| `Inference.Labels` | step2-model-build-deploy/src/inference.py:109 | one label per cluster id, in order |
| `Inference.Min3` | step2-model-build-deploy/src/inference.py:115 | `zip` stops at the shortest of the three lists: the length is one of the three and no larger than any |
| `Inference.Collect` | step2-model-build-deploy/src/inference.py:114-121 | the loop yields one result per zipped triple, in order, with id, segment and distance copied and confidence in (0, 1] satisfying c·(1+d) = 1 |
| `Inference.AnswersFromColumns` | step2-model-build-deploy/src/inference.py:107-121 | the assembled results answer each reduced row: assigned cluster, its label, the nearest distance, and its confidence |
| `Inference.Score` | step2-model-build-deploy/src/inference.py:107-121 | scoring succeeds iff every row has a centre, and then answers every row in order |
| `Inference.PredictFn` | step2-model-build-deploy/src/inference.py:89-132 | feature and estimator errors propagate; otherwise one answer per input row, in order, with the bundle's metadata unchanged |
| `Inference.PredictionsJson` | step2-model-build-deploy/src/inference.py:116-121 | each result becomes its JSON object, in order |
| `Inference.ReadPredictionsRoundTrip` | step2-model-build-deploy/src/inference.py:116-121 | the JSON objects of the results read back as the same results |
| `Inference.OutputFn` | step2-model-build-deploy/src/inference.py:135-142 | the output document reads back as the response unchanged |
| `Inference.OutputIgnoresAccept` | step2-model-build-deploy/src/inference.py:138-142 | the accept type never changes the output |

## Left out

- `model_fn` is not modelled. It loads artifacts with joblib and from files.
  Instead, the loaded artifacts are the `Bundle` parameter of `PredictFn`.
- Decoding text is not modelled. `json.loads` and `pd.read_csv` are the
  function fields of the `Parsers` parameter, and a `None` result stands for
  the exception they raise. CSV type inference is not modelled: the CSV
  parser returns the table.
- The fitted estimators are not modelled inside: `normalizer.transform`,
  `pca_model.transform`, `kmeans_model.predict` and `kmeans_model.transform`
  are per-row functions of the bundle. Nothing ties `assign` to the nearest
  centre. `MinIsAssignedDistance` states what holds when it is.
- Logging and the re-raise wrappers are not modelled. Errors are values of one
  `Error` type, without the exception classes or messages.
- Floating point is modelled as exact real arithmetic: no rounding, inf or NaN.
  Where pandas would divide by zero, or take the mean of an empty gender group
  (NaN), the model requires non-zero divisors instead. An empty group's mean
  is a 0.0 placeholder that is never used as a divisor.
- Preprocessing.Derive: requires `DivisorsNonZero` (Age and Income never
  zero, a non-zero Purchases maximum, and every row's gender divisor
  non-zero). Where pandas would give inf or NaN the model says nothing.
- Preprocessing.Derive: requires `NoDerivedNames`. An input that already
  carries one of the sixteen derived names (pandas would overwrite or
  duplicate it) is not modelled.
- Preprocessing.PrepareFeatures: inherits both requirements of `Derive`.
- Inference.Reduced: inherits both requirements of `Derive`. The transforms
  are opaque functions, so its contract says nothing about their values.
- Inference.PredictFn: inherits both requirements of `Derive`, for the same
  reason.
- Inference.PredictFn: the fitted PCA's check that the binary block has the
  columns it was fitted on is not modelled (an extra numeric input column
  changes the width of `processed_df`). The projection is a total function
  on rows of any width.
- Preprocessing.Numbers: only numeric cells count as numbers. Pandas
  arithmetic on booleans (as 0/1) or on mixed columns is not modelled: any
  other cell is a `NotNumeric` error.
- Quantiles.Qcut: an empty column is reported as the non-unique-edges error,
  which stands in for pandas' failure on an all-NaN quantile.
- Inference.RecordFrame: only the list-of-records form of `pd.DataFrame` is
  modelled. A dict of lists, a list of scalars or lists, and other forms under
  "instances" are refused as `BadPayload`.
- Inference.OutputFn: returns the JSON document, not its text. `json.dumps`
  formatting (spacing, float printing) is not modelled.
- The `df.copy()` and `reset_index(drop=True)` calls change nothing that
  frames-as-values can observe, so neither is modelled.
- Training is not modelled beyond the two records serving reads: the
  estimator fitting, metrics and file writing in `train.py`, and the
  pipeline, deployment and Lambda scripts. `config.py` contributes only the
  constants `DefaultNClusters` and `DefaultNComponents`.
