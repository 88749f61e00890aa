# Credit-risk data pipeline, modelled in Dafny

This project models the data-preparation core of a credit-risk model built
on a Lending Club loan table. The core has three steps:

- **The cleaner** (`load_and_clean_data`).
  - It keeps resolved loans only ("Fully Paid", "Charged Off", "Default") and adds the `defaulted` label.
  - It projects the table onto an allow-list of 28 columns.
  - It turns the percent texts (`int_rate`, `revol_util`) into numbers, and reads `term` and `emp_length` as leading digit runs.
  - It fills gaps: the median in numeric columns, the least most frequent value in text columns.
  - It adds `fico_score` and `loan_to_income`.
  - It drops income outliers (at or above the 99th percentile, or not positive) and rows with `dti` of 100 or more.
  - It parses `issue_d` as "Mon-YYYY".
- **The feature deriver** (`create_advanced_features`). It assigns 16 columns in place, in source order:
  - ratios clipped to [0, 1];
  - 0/1 flags;
  - log1p depth and mix scores;
  - three right-closed `pd.cut` bins;
  - each loan's interest-rate premium over its grade's median rate;
  - a 0–13 risk score;
  - status flags.
- **The modelling selection** (`prepare_modelling_data`). It selects 28 numeric columns plus `grade`, `purpose` and `home_ownership`. It then one-hot encodes those three with `drop_first=True`: categories are sorted and the least one is dropped.

A frame is a `Table`: column names plus rows, where each row maps a name to a `Cell`. A cell is `Missing`, `Num(real)`, `Text(string)` or `Date(year, month)`. `Missing` stands for pandas NaN/None/NaT. A column is "numeric" for `select_dtypes` when it holds no text, and "object" when it holds some. pandas fixes the dtype when the table is read, and the status filter keeps it, so the two agree only while an object column keeps a text among the resolved rows. The input precondition `CleanableInput` asks for that; where it fails, pandas raises `KeyError` at `mode()[0]`.

Modules:

| module | contents |
|---|---|
| `Text` | digits, decimal parsing, digit runs, string order |
| `Stats` | median, the 99th percentile, mode |
| `Frame` | tables and filters |
| `CellRules` | per-cell rules of the cleaner |
| `Cleaning` | cleaner steps as functions; the imperative `LoadAndClean` with its two fill loops |
| `CleaningFacts` | what the cleaned table guarantees |
| `FeatureRules` | per-row feature formulas |
| `Features` | a `DataFrame` class whose methods assign columns in place |
| `Modelling` | `prepare_modelling_data` and its one-hot encoding |

The model follows pandas 2.x with its default settings (Copy-on-Write off) and Python 3 string semantics.

Where the code and its prose description differ, the model follows the code:

- **`dti` bins.** The edges are `(0, 10], (10, 20], …`, so a `dti` of 15 is binned "low", not "medium" (`FeatureRules.DtiBinExamples`).
- **Text fill.** It uses `mode()[0]`, and pandas returns the modes sorted. So a tie goes to the least value, not to the one met first (`CleaningFacts.ImputedCell`).

## Model

| member | source | states |
|---|---|---|
| CellRules.DefaultLabel | src/data_preprocessing.py:24 | the label is always 0 or 1, and is 1 exactly for a "Charged Off" or "Default" status |
| CellRules.LabelOfResolved | src/data_preprocessing.py:23-24 | on statuses that pass the filter, the label is 0 exactly for "Fully Paid" |
| CellRules.PercentToNumber | src/data_preprocessing.py:64-70 | gives a number or a gap; numbers pass unchanged; a text becomes a gap exactly when it is not a decimal once its '%' signs are removed |
| CellRules.PercentOfSpelled | src/data_preprocessing.py:64-70 | any decimal written out and followed by "%" converts back to its own value (round trip) |
| CellRules.PercentOfNoDigits | src/data_preprocessing.py:64-70 | a text with no digit is coerced to a gap |
| CellRules.LeadingNumber | src/data_preprocessing.py:72-74 | gives a whole, non-negative number or a gap; a text gives a gap exactly when it has no digit |
| CellRules.LeadingNumberFinds | src/data_preprocessing.py:72-74 | digit-free text before a number is skipped, and the run stops at the first non-digit |
| CellRules.TermExample | src/data_preprocessing.py:72-74 | "36 months" reads as 36 |
| CellRules.EmpLength | src/data_preprocessing.py:76-83 | gives a whole, non-negative number or a gap; a value other than the three mapped spellings is read as its leading digit run |
| CellRules.EmpLengthText | src/data_preprocessing.py:77-81 | values other than the three mapped spellings are left unchanged |
| CellRules.EmpLengthUnderOneYear | src/data_preprocessing.py:76-83 | "< 1 year" becomes 0 |
| CellRules.EmpLengthTenPlus | src/data_preprocessing.py:76-83 | "10+ years" becomes 10 |
| CellRules.EmpLengthNotApplicable | src/data_preprocessing.py:76-83 | "n/a" becomes a gap |
| CellRules.EmpLengthYears | src/data_preprocessing.py:82-83 | "5 years" becomes 5 |
| CellRules.EmpLengthMappingMatters | src/data_preprocessing.py:77-82 | without the mapping, "< 1 year" would read as 1; with it, it reads as 0 |
| CellRules.FicoMidpoint | src/data_preprocessing.py:100-101 | a number exactly when both bounds are numbers, and then equidistant from them |
| CellRules.LoanToIncome | src/data_preprocessing.py:104-105 | a number exactly when both inputs are numbers and the income is non-zero; the ratio times the income gives the loan |
| CellRules.MonthNumber | src/data_preprocessing.py:118 | `%b` matches exactly the twelve English abbreviations, in any case, and gives a month from 1 to 12 |
| CellRules.IssueDate | src/data_preprocessing.py:118 | gives a date or a gap. A date comes exactly from an 8-character text "Mon-YYYY" whose first three letters are a month abbreviation in any case and whose last four are digits, within the Timestamp range; its month and year are the ones the text spells. Anything else gives a gap |
| CellRules.MonthYear | src/data_preprocessing.py:118 | a date exactly when the month is an abbreviation, the year is all digits and the pair is within the Timestamp range; the date's month and year are the ones spelled |
| CellRules.IssueDateOfShown | src/data_preprocessing.py:118 | every in-range month and four-digit year written as "Mon-YYYY" parses back to that date (round trip) |
| CellRules.IssueDateCaseFree | src/data_preprocessing.py:118 | the month abbreviation's letter case does not change the result |
| CellRules.IssueDateExample | src/data_preprocessing.py:118 | "Dec-2011" is December 2011 |
| CellRules.IssueDateUpperExample | src/data_preprocessing.py:118 | "DEC-2011" is December 2011 |
| CellRules.IssueDateRejectsShortYear | src/data_preprocessing.py:118 | a two-digit year ("Dec-11") is coerced to a gap |
| CellRules.IssueDateRejectsLongMonth | src/data_preprocessing.py:118 | a four-letter month ("Sept-2011") is coerced to a gap |
| CellRules.IssueDateRejectsEarlyYear | src/data_preprocessing.py:118 | a year before the Timestamp range ("Dec-1500") is coerced to a gap |
| Cleaning.KeepResolved | src/data_preprocessing.py:23 | keeps the columns and a subsequence of the rows; every row with a resolved status appears as many times as in the input, every other row not at all |
| Frame.Filter | src/data_preprocessing.py:110-115 | the kept rows pass the test; each row passing the test occurs as often as in the input, each failing row not at all (the order is stated by `Frame.FilterSubsequence`) |
| Frame.FilterSubsequence | src/data_preprocessing.py:110-115 | the kept rows are a subsequence of the input: they keep their input order |
| Frame.Select | src/data_preprocessing.py:110-115 | keeps the columns and a subsequence of the rows: each passing row as often as in the input, no failing row |
| Cleaning.PresentIn | src/data_preprocessing.py:59 | keeps exactly the allow-listed names the table has, in allow-list order and without repeats |
| Cleaning.Project | src/data_preprocessing.py:59-60 | columns are the present allow-listed names; each row keeps its values in those columns |
| Cleaning.ColumnsOfDtype | src/data_preprocessing.py:87-92 | the numeric columns are exactly those without text and the object columns exactly those with text, in column order, without repeats |
| Cleaning.FillForMeaning | src/data_preprocessing.py:87-95 | an object column's fill is a most frequent text; a numeric column's fill is its median, with none when the column has no number |
| Cleaning.FillNumericColumns | src/data_preprocessing.py:87-90 | the loop fills every numeric column with gaps by its median; the result matches imputation on the numeric columns and nothing else |
| Cleaning.FillObjectColumns | src/data_preprocessing.py:92-95 | the loop continues over the object columns with the mode; afterwards every column is filled as imputation says |
| Cleaning.Imputed | src/data_preprocessing.py:87-95 | filling gaps keeps the columns, the row count and each row's set of cells |
| Cleaning.HandleMissingValues | src/data_preprocessing.py:87-95 | the two loops together give exactly the imputed table |
| Cleaning.KeptColumnsDistinct | src/data_preprocessing.py:28-57 | the allow-list has no repeated name |
| Cleaning.Cleaned | src/data_preprocessing.py:8-123 | the cleaned table never has more rows than the table read |
| Cleaning.LoadAndClean | src/data_preprocessing.py:8-123 | the step-by-step method returns exactly the cleaned table for its input |
| CleaningFacts.CleanedColumns | src/data_preprocessing.py:28-105 | the cleaned columns are exactly: the allow-listed ones present in the input plus `defaulted`; `fico_score` when both bounds exist; `loan_to_income` when both inputs exist. No name repeats |
| CleaningFacts.CleanedLabels | src/data_preprocessing.py:23-24 | every cleaned row has a resolved status, and `defaulted` is 0 exactly for "Fully Paid" |
| CleaningFacts.ImputedCell | src/data_preprocessing.py:87-95 | present cells are unchanged; a gap in an object column gets a most frequent text, the least among ties; a gap in a numeric column gets the median, or stays a gap if the column has no number |
| CleaningFacts.ImputedNoGaps | src/data_preprocessing.py:87-95 | after imputation, a column with any number or text has no gaps left |
| CleaningFacts.CleanedFico | src/data_preprocessing.py:100-101 | in every cleaned row, `fico_score` is the midpoint of that row's own bounds |
| CleaningFacts.CleanedRatio | src/data_preprocessing.py:104-105 | in every cleaned row, `loan_to_income` is that row's loan over its income, and is a number exactly when the loan is |
| CleaningFacts.CleanedIncome | src/data_preprocessing.py:110-112 | every cleaned income is a number, positive and strictly below the 99th percentile taken before filtering |
| CleaningFacts.CleanedDti | src/data_preprocessing.py:114-115 | every cleaned `dti` is a number below 100 |
| CleaningFacts.FiltersOnlyDelete | src/data_preprocessing.py:110-115 | the outlier filters keep the columns and return a subsequence of the rows (values and order kept) |
| CleaningFacts.TextsDroppedRejected | src/data_preprocessing.py:92-95 | an allow-listed column, not rewritten with numbers, whose texts all sit in unresolved rows, while some row is resolved, makes the table fail `CleanableInput` (pandas raises `KeyError` at `mode()[0]`) |
| CleaningFacts.EmptiedObjectColumnRejected | src/data_preprocessing.py:92-95 | a `purpose` text only in a "Current" row, with a gap in a "Fully Paid" row, is such a table |
| CleaningFacts.IncomeCapDropsTop | src/data_preprocessing.py:111 | when any income exists, the income filter drops at least one row |
| Stats.Sort | src/data_preprocessing.py:90 | sorted, and a permutation of its input |
| Stats.Median | src/data_preprocessing.py:90 | no median (NaN) exactly when the column has no number |
| Stats.MedianHalves | src/data_preprocessing.py:90 | at least half the values are at most the median, and at least half are at least it |
| Stats.MedianWithin | src/data_preprocessing.py:90 | the median lies between the smallest and the largest value |
| Stats.MedianOrderFree | src/data_preprocessing.py:90 | the median does not depend on row order |
| Stats.Quantile99 | src/data_preprocessing.py:111 | no percentile (NaN) exactly when the column has no number |
| Stats.QuantileWithin | src/data_preprocessing.py:111 | the 99th percentile lies between the smallest and the largest value |
| Stats.Mode | src/data_preprocessing.py:95 | none exactly for an empty column; otherwise a most frequent value, and the least among equally frequent ones |
| Stats.ModeOrderFree | src/data_preprocessing.py:95 | the mode does not depend on row order |
| FeatureRules.Clip01 | src/feature_engineering.py:15 | the result lies in [0, 1]; values inside are unchanged, values below become 0, values above become 1 |
| FeatureRules.Utilization | src/feature_engineering.py:14-15 | a number exactly when `revol_util` is; it lies in [0, 1], equals `revol_util`/100 for inputs in [0, 100], and is 1 above 100 |
| FeatureRules.DebtBurden | src/feature_engineering.py:17 | a number exactly when both `dti` and the utilization are numbers |
| FeatureRules.DebtBurdenBounds | src/feature_engineering.py:17 | for `dti` in [0, 100] and utilization in [0, 1] the score lies in [0, 1], and is monotone in both inputs |
| FeatureRules.Indicator | src/feature_engineering.py:19-24 | a 0/1 flag that is 1 exactly when its condition holds |
| FeatureRules.HighDelinquencyHasDelinquency | src/feature_engineering.py:19-20 | `high_delinquency` = 1 implies `has_delinquencies` = 1 |
| FeatureRules.AccountMix | src/feature_engineering.py:28 | a number exactly when both account counts are numbers |
| FeatureRules.BinIndex | src/feature_engineering.py:30-46 | finds a bin exactly when the value is in (first edge, last edge], and the value lies in that bin's right-closed interval |
| FeatureRules.BinMonotone | src/feature_engineering.py:30-46 | a larger value never falls in an earlier bin |
| FeatureRules.Cut | src/feature_engineering.py:30-46 | a label exactly when the value is a number inside the outer edges, and the label belongs to the interval containing it; otherwise a gap |
| FeatureRules.DtiBinExamples | src/feature_engineering.py:42-46 | 15 is "low", 10 is "very_low", 0 and 100.5 are gaps |
| FeatureRules.FicoBinExamples | src/feature_engineering.py:36-40 | 650 is "fair", 650.5 is "good", 851 is a gap |
| FeatureRules.GradeRates | src/feature_engineering.py:48 | a rate occurs in it exactly when some row of the grade has that numeric rate |
| FeatureRules.GradeRatesAreGroup | src/feature_engineering.py:48 | a grade's rates are exactly the numeric rates of that grade's rows, in row order, each rated row counted once |
| FeatureRules.Premium | src/feature_engineering.py:48-49 | when a number, it is the rate minus its grade's median rate |
| FeatureRules.RatePremium | src/feature_engineering.py:48-49 | a number exactly when the row has a grade and a numeric rate |
| FeatureRules.PremiumLocal | src/feature_engineering.py:48 | a premium depends only on the rows of its own grade |
| FeatureRules.PremiumMonotone | src/feature_engineering.py:48-49 | within a grade, a higher rate never has a lower premium |
| FeatureRules.PremiumHalves | src/feature_engineering.py:48 | the grade median splits its grade's rates into halves |
| FeatureRules.RiskScore | src/feature_engineering.py:51-57 | a whole number from 0 to 13 |
| FeatureRules.RiskScoreExtremes | src/feature_engineering.py:51-57 | the score is 13 exactly when all five risk conditions hold, and 0 exactly when none does |
| FeatureRules.FeatureRowCells | src/feature_engineering.py:14-61 | each of the 16 new cells of a row equals its formula applied to that row's own inputs |
| FeatureRules.FeatureRowKeeps | src/feature_engineering.py:9-66 | all other cells of the row are unchanged |
| FeatureRules.FeatureRowKeys | src/feature_engineering.py:9-66 | the row gains exactly the 16 new names |
| Frame.AddNamesFacts | src/feature_engineering.py:9-66 | after assigning a list of names, the columns are the old ones plus those names; the old ones keep their places and no name appears twice |
| Frame.AddNamesJoin | src/feature_engineering.py:9-66 | assigning two lists of names in one go gives the same columns as assigning the first list and then the second |
| Features.GroupsMakeFeatureColumns | src/feature_engineering.py:9-66 | the six groups of assignments, in source order, give the column list of the sixteen assignments |
| Features.FeatureColumnsMembers | src/feature_engineering.py:9-66 | the columns afterwards are exactly the old ones plus the 16 new names |
| Features.FeatureColumnsShape | src/feature_engineering.py:9-66 | existing columns keep their places, and names stay unique |
| Features.DataFrame.Assign | src/feature_engineering.py:14 | `df[name] = values` overwrites an existing column in place or appends a new one last |
| Features.DataFrame.AddRatioColumns | src/feature_engineering.py:14-17 | assigns `credit_utilization` and `debt_burden_score` to every row; grade and rate are untouched |
| Features.DataFrame.AddFlagColumns | src/feature_engineering.py:19-24 | assigns the delinquency, bankruptcy and inquiry flags to every row; grade and rate are untouched |
| Features.DataFrame.AddHistoryColumns | src/feature_engineering.py:26-28 | assigns the history depth and account mix to every row; grade and rate are untouched |
| Features.DataFrame.AddBinColumns | src/feature_engineering.py:30-46 | assigns the three bins to every row; grade and rate are untouched |
| Features.DataFrame.AddScoreColumns | src/feature_engineering.py:48-57 | assigns each row's premium, computed on the frame as it was before the feature columns, and its risk score |
| Features.DataFrame.AddStatusColumns | src/feature_engineering.py:59-61 | assigns the `verified`, `owns_home` and `long_term` flags to every row |
| Features.DataFrame.CreateAdvancedFeatures | src/feature_engineering.py:9-66 | the 16 in-place assignments give the feature columns and, row by row, the feature row; the frame stays well formed |
| Features.PremiumsAgree | src/feature_engineering.py:48-49 | premiums computed after the earlier assignments equal those on the input frame |
| Features.FeaturesOnlyAdd | src/feature_engineering.py:9-66 | the row count is kept and every pre-existing cell outside the 16 names is unchanged |
| Features.FeaturesWellFormed | src/feature_engineering.py:9-66 | every row has exactly the frame's columns afterwards |
| Features.FeatureGuarantees | src/feature_engineering.py:14-61 | utilization lies in [0, 1]; the seven flags are 0/1; high delinquency implies delinquency; the risk score lies in 0..13 |
| Modelling.Categories | src/feature_engineering.py:78 | the categories are strictly sorted and are exactly the distinct texts of the column |
| Modelling.BaselineLeast | src/feature_engineering.py:78 | the dropped baseline category is the least text in the column |
| Modelling.Dummies | src/feature_engineering.py:78 | one cell per kept category, named `col_cat`, holding that category's 1/0 indicator |
| Modelling.PrepareModellingData | src/feature_engineering.py:68-83 | none exactly when a selected column is missing (KeyError); otherwise the 28 features followed by the indicator columns, one row per input row |
| Modelling.ModelKeepsFeatures | src/feature_engineering.py:69-77 | each selected feature column keeps every row's value |
| Modelling.IndicatorMeaning | src/feature_engineering.py:78 | each indicator `col_cat` is 1 exactly when the row's value is that category, and 0 otherwise |
| Modelling.KeptLevelsMeaning | src/feature_engineering.py:78 | a category gets an indicator exactly when it occurs and some other category in the column is less than it |
| Modelling.IndicatorCount | src/feature_engineering.py:78 | a column with n distinct categories gives n - 1 indicators, or none when it has no text |
| Modelling.OneHot | src/feature_engineering.py:78 | at most one indicator of a row is 1; all are 0 exactly when the value is the baseline or a gap |
| Modelling.ModelColumnsDistinct | src/feature_engineering.py:69-78 | no output column name repeats: features and indicators of different columns never clash |
| Modelling.ModelWellFormed | src/feature_engineering.py:77-78 | every output row has exactly the output columns |

## Left out

- Reading the CSV (whole or chunked, `sample_size`), the `print` calls, `save_to_csv`, the `__main__` blocks and `src/load_to_mysql.py` are left out. They are I/O; the model starts from the table read.
- Environment lookups (`dotenv`, `os.getenv`) are left out. They only configure the database connection.
- Floating point is modelled as exact reals. NaN is a gap and infinities do not arise. The 99th percentile uses numpy's linear interpolation at index (n-1)·0.99.
- `np.log1p` is a function parameter (`log1p`). Dafny has no logarithm. So the history depth and the account mix give a number for every numeric count, while `np.log1p` gives -inf at -1 and NaN below -1 (src/feature_engineering.py:26 and :28).
- FeatureRules.AccountMix: "a number exactly when both counts are numbers" holds in pandas only for counts above -1; at -1 the score is -inf and below -1 NaN.
- FeatureRules.Log1p: the history depth is a number exactly when `total_acc` is, in the model; in pandas only when `total_acc` is above -1 as well.
- CellRules.LoanToIncome: a zero income gives a gap rather than pandas' inf/NaN. Such a row never survives the positive-income filter.
- Modelling.Indicator: `get_dummies` gives bool columns in pandas 2; they are modelled as numbers 1 and 0.
- Modelling.Dummies: numbers in a categorical column are treated like gaps (all indicators 0), so the model does not create `col_<number>` columns.
- Cleaning.LoadAndClean: the input must satisfy `CleanableInput`. Among the resolved rows, `annual_inc` and `dti` hold no text; neither does `loan_amnt` when `annual_inc` is present, nor the two FICO bounds when both are present. pandas raises `TypeError` in those arithmetic steps otherwise.
- Cleaning.ColumnsOfDtype: the model reads a column's dtype off the values that survive the status filter, while pandas keeps the dtype the column was read with. The two differ only for an object column whose texts all sit in dropped rows; its gaps then make `mode()[0]` raise `KeyError` (src/data_preprocessing.py:95). `CleanableInput` excludes that input (`CleaningFacts.TextsDroppedRejected`), so the model has no such error path.
- Cleaning.LoadAndClean: `CleanableInput` also excludes a column that mixes numbers and texts, which a chunked read can produce. pandas' `mode()` counts both kinds of value in such a column, while the model's fill takes the mode of the texts alone.
- Cleaning.HandleMissingValues: the chained `df[col].fillna(..., inplace=True)` is modelled as writing through to `df`. That holds in pandas 2.x with Copy-on-Write off; under Copy-on-Write (the only mode of pandas 3) both loops would leave `df` unchanged.
- CellRules.IssueDate: the month abbreviation is matched in English (the C locale), with ASCII case folding, and the year with ASCII digits. The regular expression behind `%b-%Y` folds case the Unicode way ("ſ" matches "s") and its `\d` matches non-ASCII digits, so some such texts parse there and give a gap here.
- CellRules.PercentToNumber: only a sign, ASCII digits and one decimal point are read. Exponent notation ("1.2e1%"), spellings such as "inf" or "nan", and non-ASCII digits give a gap here, while `pd.to_numeric` reads some of them as numbers.
- CellRules.LeadingNumber: a number is taken as the integer part of its magnitude, which is what its `str` begins with in positional notation. A float that Python prints in exponent form differs: `str(1e-05)` is "1e-05", whose first digit run is 1. Python's `\d` also matches non-ASCII digits, which the model does not count as digits.
- Features.DataFrame.CreateAdvancedFeatures: the input must have every column the formulas read, with numbers or gaps (`FeatureInput`). Otherwise pandas raises `KeyError` or `TypeError`.
- FeatureRules.Utilization: the two assignments of `credit_utilization` (divide, then clip) are modelled as one column assignment with the clipped value.
- Dtype changes are not modelled: `astype(int)`, the int-versus-float dtype of filled columns, and the categorical dtype of `pd.cut`. Values are modelled, not storage types.
- Pandas' index labels and `SettingWithCopyWarning` aliasing are left out. Rows are a sequence, and filters keep their order.
