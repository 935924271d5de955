# Titanic passenger preprocessing, modelled in Dafny

The modelled program is one linear pandas script, `preprocessing/preprocessing.py`. It joins a
passenger information table and a passenger trip table on `PassengerId`. It then cleans the joined
table column by column, derives an `AgeRange` label from the age, and writes six column-subset
tables. Those tables are shaped for query-driven wide-column storage.

The model works on sequences of records. Every nullable column is an `Option`; a missing value
(NaN) is `None`. Ages and fares are exact `real` values, and the integer columns are `int`.

- `Wrappers`: the `Option` type.
- `AgeBucket`: the classifier `age_range` (lines 32-44). It is pure and total, with half-open
  bands at 18, 30, 45 and 60.
- `Stats`: the pandas median. It works over an insertion-sorted copy of the known values. For an
  odd count it is the middle value; for an even count, the mean of the two middle values. It is
  `None` over an empty column.
- `Records`: the two input row types, the joined `Row`, identifier columns and key counting.
- `Join`: the merge on `PassengerId` (line 9). `InnerJoin` is the specification function and
  `NestedLoopJoin` the nested loop that is proved equal to it. Keys are compared as optional
  values, so two missing identifiers match each other, as pandas merge does with NaN keys.
- `Cleaning`: the column passes of lines 13-46, one loop method per pass. `Clean` runs them in
  the script's order, reassigning a local table `df` the way the script reassigns its DataFrame.
  It is proved equal to the specification function `CleanTable`. The median is taken over the
  rows that have an identifier, before any fill.
- `Projections`: the six column selections (lines 69-109).
- `Pipeline`: join, clean and project, with end-to-end lemmas.

Behaviours of the code that are easy to misread, and that the model reproduces:

- Cabin: only a missing (NaN) cabin becomes `"Unknown"`. An empty-string cabin is kept, because
  `fillna` does not touch it.
- Join keys: the code does not assume unique identifiers. The number of joined rows for an
  identifier is the product of its counts in the two inputs (`Join.JoinCount`). The "one row per
  identifier" property holds only when the identifiers are unique in each input
  (`Join.JoinOnePerSharedId`).
- Codes: survived in {-1, 0, 1} and class in {0, 1, 2, 3} hold only when the inputs hold the
  documented codes. `Cleaning.CleanTableCodes` states that as its precondition.
- Median scope: the median is computed after rows without an identifier are dropped.

## Model

| member | source | states |
|---|---|---|
| `AgeBucket.AgeRange` | preprocessing/preprocessing.py:32-44 | The result is one of the six labels. It is "Unknown" exactly when the age is missing or negative. Each other label holds exactly on its half-open band: [0,18), [18,30), [30,45), [45,60), [60,∞). |
| `AgeBucket.AgeRangeMonotone` | preprocessing/preprocessing.py:33-44 | For present ages a <= b, the band index of a is at most that of b ("Unknown", for negative ages, is index 0). A non-negative age is never "Unknown". |
| `AgeBucket.AgeRangeSamples` | preprocessing/preprocessing.py:32-44 | -1 and a missing age give "Unknown"; 0 and 17.99 give "0-17"; 18 gives "18-29"; 60 gives "60+". |
| `Stats.SortedCopy` | preprocessing/preprocessing.py:16 | The copy the median reads is sorted, has the same length and holds the same multiset of values. |
| `Stats.Median` | preprocessing/preprocessing.py:16 | The median is missing exactly when there are no values. |
| `Stats.MedianSplitsHalves` | preprocessing/preprocessing.py:16 | At least half the values are at most the median, and at least half are at least the median. |
| `Stats.MedianIsMiddleOfSorted` | preprocessing/preprocessing.py:16 | For any sorted arrangement of the values, the median is its middle value for an odd count, and the mean of its two middle values for an even count. |
| `Stats.MedianWithinBounds` | preprocessing/preprocessing.py:16 | The median lies within any bounds that every value respects. |
| `Stats.MedianAtLeast` | preprocessing/preprocessing.py:16 | The median is at least any lower bound of the values. |
| `Stats.MedianOfPermutation` | preprocessing/preprocessing.py:16 | Two columns with the same multiset of values have the same median, so row order does not matter. |
| `Records.CountUnique` | preprocessing/preprocessing.py:9 | In a column of unique keys, every key occurs once if present and otherwise not at all. |
| `Join.NestedLoopJoin` | preprocessing/preprocessing.py:9 | The nested loop over both tables returns exactly the inner join `InnerJoin`. |
| `Join.JoinSound` | preprocessing/preprocessing.py:9 | Every joined row merges an information row and a trip row that have the same identifier. |
| `Join.JoinComplete` | preprocessing/preprocessing.py:9 | Every pair of rows with the same identifier yields its merged row in the join. |
| `Join.JoinMembership` | preprocessing/preprocessing.py:9 | A row is in the join if and only if it merges a matching pair of input rows. |
| `Join.JoinIdsShared` | preprocessing/preprocessing.py:9 | Every joined row's identifier occurs in both inputs. |
| `Join.JoinCount` | preprocessing/preprocessing.py:9 | An identifier occurs in the join as often as the product of its counts in the two inputs. |
| `Join.JoinOnePerSharedId` | preprocessing/preprocessing.py:9 | When identifiers are unique in each input, each shared identifier gives exactly one joined row and any other identifier gives none. |
| `Cleaning.WithId` | preprocessing/preprocessing.py:13 | No kept row has a missing identifier, and no row is added. |
| `Cleaning.WithIdCounts` | preprocessing/preprocessing.py:13 | Each row with an identifier is kept as often as it occurs; a row without one is never kept. |
| `Cleaning.WithIdAppend` | preprocessing/preprocessing.py:13 | The filter commutes with concatenation, so kept rows stay in their original order. |
| `Cleaning.WithIdAllPresent` | preprocessing/preprocessing.py:13 | A table whose identifiers are all present passes the filter unchanged. |
| `Cleaning.DropMissingId` | preprocessing/preprocessing.py:13 | The filtering loop returns exactly `WithId` of its input. |
| `Cleaning.KnownAgesValues` | preprocessing/preprocessing.py:16 | The values the median reads are exactly the present ages of the table. |
| `Cleaning.KnownAgesAppend` | preprocessing/preprocessing.py:16 | Collecting known ages commutes with concatenation, so each row's present age is collected exactly once, in row order, duplicates included. |
| `Cleaning.KnownAgesEmpty` | preprocessing/preprocessing.py:16 | No age is known exactly when every age is missing. |
| `Cleaning.MedianAge` | preprocessing/preprocessing.py:16 | The median age is missing exactly when every age of the table is missing. |
| `Cleaning.FillAge` | preprocessing/preprocessing.py:17 | The row count is unchanged. A present age is kept and a missing age becomes the given median. No other field of any row changes. |
| `Cleaning.FillEmbarked` | preprocessing/preprocessing.py:20 | The row count is unchanged. A present port is kept and a missing port becomes "U". No other field changes. |
| `Cleaning.FillSurvived` | preprocessing/preprocessing.py:23 | The row count is unchanged. A present flag is kept and a missing flag becomes -1. No other field changes. |
| `Cleaning.FillPclass` | preprocessing/preprocessing.py:26 | The row count is unchanged. A present class is kept and a missing class becomes 0. No other field changes. |
| `Cleaning.FillCabin` | preprocessing/preprocessing.py:29 | The row count is unchanged. A present cabin is kept and a missing cabin becomes "Unknown". No other field changes. |
| `Cleaning.DeriveAgeRange` | preprocessing/preprocessing.py:46 | The row count is unchanged. Each row's AgeRange is the classifier applied to its current age. No other field changes. |
| `Cleaning.CleanTable` | preprocessing/preprocessing.py:13-46 | Row i of the cleaned table comes from row i of the rows with an identifier. Its identifier is present; name, sex, fare and the family counts are unchanged. Each fillable column keeps a present value and otherwise gets its default; the age default is the median taken before the fill. AgeRange is the label of the filled age. |
| `Cleaning.Clean` | preprocessing/preprocessing.py:13-46 | The passes run in the script's order and produce exactly `CleanTable` of the joined table. |
| `Cleaning.CleanTableAgeFilled` | preprocessing/preprocessing.py:16-46 | If some kept row has an age, no age is missing after cleaning, and a row is labelled "Unknown" exactly when its age is negative. |
| `Cleaning.CleanTableNoUnknown` | preprocessing/preprocessing.py:16-46 | If some kept row has an age and no age is negative, no cleaned row is labelled "Unknown". |
| `Cleaning.CleanTableNoAges` | preprocessing/preprocessing.py:16-46 | If no kept row has an age, the median is missing. Then every age stays missing and every row is labelled "Unknown". |
| `Cleaning.CleanTableMedian` | preprocessing/preprocessing.py:16-17 | If the median used for cleaning was missing, the median of the cleaned table is missing too. |
| `Cleaning.CleanRowIdempotent` | preprocessing/preprocessing.py:17-46 | Cleaning a cleaned row again changes nothing, unless its age is still missing and a median has appeared. |
| `Cleaning.CleanTableIdempotent` | preprocessing/preprocessing.py:13-46 | Cleaning the cleaned table again gives the same table. |
| `Cleaning.CleanTableCodes` | preprocessing/preprocessing.py:23-26 | If the inputs hold only classes 1-3 and flags 0/1, cleaned classes lie in {0,1,2,3} and cleaned flags in {-1,0,1}. |
| `Cleaning.CleanRowSample` | preprocessing/preprocessing.py:13-46 | A row with every nullable column missing, cleaned with median 28, gets age 28, class 0, cabin "Unknown", port "U", flag -1 and label "18-29". |
| `Projections.SurvivorsByClassTable` | preprocessing/preprocessing.py:69 | Same length as the cleaned table. Row i carries exactly PassengerId, Pclass, Survived, Name, Sex and Age of row i. |
| `Projections.PassengersByPortAgeTable` | preprocessing/preprocessing.py:77 | Same length as the cleaned table. Row i carries exactly Embarked, Age, PassengerId, Name, Sex, Pclass and Survived of row i. |
| `Projections.WomenSurvivorsByClassTable` | preprocessing/preprocessing.py:85 | Same length as the cleaned table. Row i carries exactly Pclass, Sex, Survived, PassengerId, Name and Age of row i. |
| `Projections.PassengersByAgeRangeTable` | preprocessing/preprocessing.py:93 | Same length as the cleaned table. Row i carries exactly AgeRange, Age, PassengerId, Name, Sex, Pclass and Survived of row i. |
| `Projections.PortSurvivalAnalysisTable` | preprocessing/preprocessing.py:101 | Same length as the cleaned table. Row i carries exactly Embarked, Survived, PassengerId, Name, Pclass, Sex and Age of row i. |
| `Projections.ClassAgeSurvivalAnalysisTable` | preprocessing/preprocessing.py:109 | Same length as the cleaned table. Row i carries exactly AgeRange, Pclass, Survived, PassengerId, Name, Sex and Age of row i. |
| `Projections.ProjectionsAppend` | preprocessing/preprocessing.py:69-109 | Each projection commutes with concatenation of tables, so no projection reorders rows. |
| `Pipeline.Run` | preprocessing/preprocessing.py:9-109 | The script yields the six projections of the cleaned join, and all six have the row count of the cleaned table. |
| `Pipeline.CleanedIdsShared` | preprocessing/preprocessing.py:9-13 | Every cleaned row has an identifier that occurs in both inputs. |
| `Pipeline.OutputsOnlySharedIds` | preprocessing/preprocessing.py:9-109 | An identifier missing from either input appears in none of the six outputs, and every output row has an identifier. |
| `Pipeline.OutputsFilled` | preprocessing/preprocessing.py:20-109 | In every output, each selected class, survival flag and port column is never missing, and each selected AgeRange is always derived. |

## Left out

- Reading the two CSV files and writing the six output files (lines 5-6, 70, 78, 86, 94, 102, 110): file I/O. The model starts from the parsed rows and ends with the six tables.
- The printed row counts, `value_counts` summaries and completion banner (lines 57-63, 71, 79, 87, 95, 103, 111, 113-120): console output with no contract.
- Rounding Age and Fare to two decimals (lines 49-50): floating-point rounding. The model's ages and fares are exact reals, so an imputed age is the unrounded median.
- The `.astype(int)` casts (lines 23, 26, 53-55): changes of representation inside pandas. The integer columns are `int` from the start, and Survived and Pclass are `Option<int>` that the fill makes present.
- pandas internals: dtype inference and index handling. The join's row order is the nested-loop order (information rows in order, then their matching trip rows in order); pandas' exact order for duplicate keys is not modelled.
- The order of AgeRange and rounding: the script derives AgeRange (line 46) before it rounds Age (line 49). Its output can therefore pair Age 18.0 with "0-17" when the age was 17.996. The model does not round, so its ages and labels always agree.
- Missing SibSp, Parch, Name, Sex or Fare: these columns are non-optional in the model. A missing SibSp or Parch makes the casts at lines 54-55 fail in the script; a missing Name, Sex or Fare passes through it unchanged. The model's types rule out all of these inputs.
- Malformed input rows and unreadable files: parsing is not part of this model.
