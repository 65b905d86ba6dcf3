# Azimuth dataset filtering and performance-analysis table, in Dafny

This project models two pieces of Azimuth, a tool for analysing a text
classifier's dataset and predictions:

- **`filter_dataset_split`** (`azimuth/utils/filtering.py`). It narrows a
  dataset split by a composite filter: a confidence window, labels, an
  utterance substring, predictions, data actions, outcomes and smart-tag
  families. The operation is the method `Filtering.FilterDatasetSplit`. It
  applies the criteria one after another, as the Python code does, and is
  proved to compute the declarative `Filtering.FilteredSplit`. That function
  keeps, in order, the rows that pass every criterion whose filter is active
  and, except for data actions, whose column exists. The lemmas then state what each criterion keeps. They
  also state that rows are only removed, that neutral filters keep
  everything, that a missing column disables its criterion, and that
  filtering twice changes nothing.
- **The metrics-per-filter table** (`webapp/src/components/Metrics/PerformanceAnalysis.tsx`).
  The model covers:
  - how the rows are built, with the overall row at id -1 ahead of the per-filter rows;
  - the comparator that keeps the overall row on top in both sort directions;
  - the clamp on the "see more" step near the grid's `MAX_PAGE_SIZE`;
  - the query parameters of each row's link, as an ordered object spread;
  - the shading and spacing of the overall row, and when the footer is shown.

Modules:

| file | module | contents |
|---|---|---|
| `wrappers.dfy` | `Wrappers` | `Option` |
| `datasets.dfy` | `Datasets` | cell values, rows, a split as columns plus rows, `Dataset.filter` as `Filter` on sequences |
| `filtering.dfy` | `Filtering` | the filters, the row predicates, the criteria, the method and its properties |
| `performance_analysis.dfy` | `PerformanceAnalysis` | rows, comparator, paging clamp (a class and a method), link parameters, decoration |

Where the docstring and the code of `filter_dataset_split` disagree, the model
follows the code. The docstring announces a `ValueError` when a column to filter
by is missing (`azimuth/utils/filtering.py:36-37`). The code never raises it:
it skips that criterion (lines 46, 52, 54, 63, 86 and 93-95). The lemma
`Filtering.AbsentColumnsSkipCriteria` states this behaviour.

## Model

| member | source | states |
|---|---|---|
| `Datasets.Filter` | azimuth/utils/filtering.py:47-51 | `Dataset.filter` keeps only elements of the input that pass the predicate, and never more than the input has |
| `Datasets.FilterIsSubsequence` | azimuth/utils/filtering.py:47-51 | a filter result is obtained from its input by deleting elements without reordering (witnessed by increasing positions) |
| `Datasets.FilterMember` | azimuth/utils/filtering.py:47-51 | an element is in a filter result exactly when it is in the input and passes the predicate |
| `Datasets.FilterPositions` | azimuth/utils/filtering.py:47-51 | position by position: the result is the input at increasing positions, and position i is among them exactly when its element passes, so a passing element that occurs twice is kept twice |
| `Datasets.FilterTwice` | azimuth/utils/filtering.py:40-105 | two filters in a row equal one filter by the conjunction, which is how the chain of steps composes |
| `Filtering.Lower` | azimuth/utils/filtering.py:55-56 | `lower()` keeps the length, leaves no upper-case ASCII letter, keeps every other character, and maps each upper-case letter to the lower-case letter at the same alphabet position |
| `Filtering.LowerIdempotent` | azimuth/utils/filtering.py:55-56 | lower-casing an already lower-cased string changes nothing |
| `Filtering.Contains` | azimuth/utils/filtering.py:56 | a text contains a query only when the query is no longer than the text, and always contains the empty query |
| `Filtering.ContainsIff` | azimuth/utils/filtering.py:56 | Python's `in` on strings holds exactly when the query occurs at some position of the text |
| `Filtering.ConfidenceInWindow` | azimuth/utils/filtering.py:48-50 | a confidence row is kept only when the window is non-empty (`confidence_min <= confidence_max`) |
| `Filtering.ValueIn` | azimuth/utils/filtering.py:53 | a row's cell is among the allowed values only when the column is present and equals one of them |
| `Filtering.FirstIn` | azimuth/utils/filtering.py:66 | `x[model_predictions][0] in filters.prediction` holds only when the cell is present and indexable (a non-empty list, or a non-empty string whose `[0]` is its first character) and its first item equals one of the selected predictions |
| `Filtering.TextContains` | azimuth/utils/filtering.py:55-56 | the utterance test holds only for a string cell no shorter than the query, and always for the empty query on a string cell |
| `Filtering.QueryCaseIgnored` | azimuth/utils/filtering.py:55-56 | the utterance test gives the same answer for a query and its lower-cased form |
| `Filtering.AnySelected` | azimuth/utils/filtering.py:74-79 | an OR over the selection holds only for a non-empty selection, and, when "none" is not selected, only when some selected flag is set on the row |
| `Filtering.FilteredSplit` | azimuth/utils/filtering.py:40-107 | the narrowed split keeps the columns and at most the input's rows, each of them an input row admitted by every criterion |
| `Filtering.NoneMarkerMatchesUnflagged` | azimuth/utils/filtering.py:76 | selecting only the "none" marker matches exactly the rows on which no flag of the family is set |
| `Filtering.FilterDatasetSplit` | azimuth/utils/filtering.py:19-107 | on a split meeting `Fits` (a sufficient condition for `filter_dataset_split` to run without an exception), the step-by-step filter returns exactly `FilteredSplit`: the same columns and, in order, the rows that pass every applicable criterion |
| `Filtering.ApplyFixedCriteria` | azimuth/utils/filtering.py:40-88 | the six sequential steps (confidence, label, utterance, prediction, data action, outcome), each applied only when active and, except for data actions, when its column exists, keep exactly the rows passing all six guarded tests |
| `Filtering.ApplySmartTags` | azimuth/utils/filtering.py:89-105 | the loop over the smart-tag families, each applied only when it has a selection and all its tag columns exist, completes the filter: its result is `FilteredSplit`'s rows |
| `Filtering.FixedStep` | azimuth/utils/filtering.py:40-88 | one step of the chain (filter by the step's test when its guard holds, otherwise keep the rows) turns the rows passing the first k criteria into those passing the first k+1 |
| `Filtering.TagStep` | azimuth/utils/filtering.py:92-105 | one iteration of the smart-tag loop adds exactly that family's constraint |
| `Filtering.KeptIff` | azimuth/utils/filtering.py:40-107 | a row is in the output exactly when it is a row of the input and is admitted (`Admits`): it passes every fixed criterion whose guard applies and, for every active smart-tag family, some selected tag of the family; the rule lemmas below spell this out criterion by criterion |
| `Filtering.KeptPositions` | azimuth/utils/filtering.py:40-107 | the output rows are the input rows at increasing positions, and input row i is among them exactly when it is admitted; duplicates of an admitted row are all kept |
| `Filtering.OutputIsSubsequence` | azimuth/utils/filtering.py:40-107 | the output has the input's columns and its rows are a subsequence of the input's: only removed, never added or reordered |
| `Filtering.NeutralFiltersKeepAll` | azimuth/utils/filtering.py:40-105 | with `confidence_min <= 0`, `confidence_max >= 1`, empty lists, no utterance and every family list empty, the output is the input |
| `Filtering.FilteringTwiceChangesNothing` | azimuth/utils/filtering.py:40-107 | filtering the output again with the same filters and configuration returns it unchanged |
| `Filtering.OutputFits` | azimuth/utils/filtering.py:40-107 | the output again meets `Fits`, so filtering it again is covered by `FilterDatasetSplit` |
| `Filtering.AbsentColumnsSkipCriteria` | azimuth/utils/filtering.py:40-88 | when the confidence, label, text, prediction or outcome column is missing, the result equals the result with that criterion cleared; no error is raised |
| `Filtering.AbsentTagColumnSkipsFamily` | azimuth/utils/filtering.py:93-95 | a family with a missing tag column imposes no constraint: the result equals the result with that family's selection emptied |
| `Filtering.ConfidenceWindowRule` | azimuth/utils/filtering.py:40-51 | confidence alone, active and with its column present (`model_confidences` without postprocessing, else `postprocessed_confidences`): a row is kept exactly when its first confidence is a number (a bool, an int or a float, compared by value as Python does, `True` as 1) and `confidence_min <= conf[0] <= confidence_max` |
| `Filtering.LabelRule` | azimuth/utils/filtering.py:52-53 | labels alone, with the label column present: a row is kept exactly when its label is one of the selected labels |
| `Filtering.UtteranceRule` | azimuth/utils/filtering.py:54-56 | utterance alone, with the text column present: a row is kept exactly when the lower-cased query occurs in the lower-cased text |
| `Filtering.EmptyUtteranceKeepsAll` | azimuth/utils/filtering.py:54-56 | an empty utterance query keeps every row |
| `Filtering.PredictionRule` | azimuth/utils/filtering.py:57-71 | predictions alone, with the column present: a row is kept exactly when `model_predictions[0]` (without postprocessing; the first item of a non-empty list or the first character of a non-empty string) or `postprocessed_prediction` (otherwise) is selected |
| `Filtering.DataActionRule` | azimuth/utils/filtering.py:72-79 | data actions alone: a row is kept exactly when some selected action is set on it, where "no action" means none of all the data actions is set; no column check |
| `Filtering.OutcomeRule` | azimuth/utils/filtering.py:80-88 | outcomes alone, with the column present: a row is kept exactly when its outcome is selected |
| `Filtering.SmartTagRule` | azimuth/utils/filtering.py:89-105 | smart tags alone: a row is kept exactly when every family with a selection and all its tag columns present has a matching selected tag (AND across families, OR within), "no smart tag" meaning no tag of the family is set |
| `PerformanceAnalysis.BuildRows` | webapp/src/components/Metrics/PerformanceAnalysis.tsx:117-126 | no data gives no rows; otherwise 1 + n rows: the overall record with id -1, then the selected option's records in order with their index as id |
| `PerformanceAnalysis.RowIdsDistinct` | webapp/src/components/Metrics/PerformanceAnalysis.tsx:117-126 | row ids are pairwise distinct, and only the first row carries the overall id |
| `PerformanceAnalysis.RowClassName` | webapp/src/components/Metrics/PerformanceAnalysis.tsx:332 | the class is "total" exactly for the overall row and "" for every other row |
| `PerformanceAnalysis.RowSpacingBottom` | webapp/src/components/Metrics/PerformanceAnalysis.tsx:274-278 | only the overall row gets a bottom spacing, of at most 12 |
| `PerformanceAnalysis.OnlyFirstRowDecorated` | webapp/src/components/Metrics/PerformanceAnalysis.tsx:274-278 | in the built rows, row 0 gets class "total" and spacing 12, and every other row gets "" and 0 |
| `PerformanceAnalysis.HasFooter` | webapp/src/components/Metrics/PerformanceAnalysis.tsx:345-349 | the footer is shown exactly when the table has at least `INITIAL_PAGE_SIZE` rows; without it the table has at most `INITIAL_NUMBER_VISIBLE` rows |
| `PerformanceAnalysis.FooterRule` | webapp/src/components/Metrics/PerformanceAnalysis.tsx:345-349 | the footer is present exactly when there are more than `INITIAL_NUMBER_VISIBLE` rows, that is, when the option has at least `INITIAL_NUMBER_VISIBLE` records |
| `PerformanceAnalysis.InitialSortModelInOrder` | webapp/src/components/Metrics/PerformanceAnalysis.tsx:108-110 | the initial sort model (utterance count, descending) is a one-column model in a direction of `sortingOrder`, its sign is 1, and every such model has a first entry with a direction, as the comparator and the sorting lemmas require |
| `PerformanceAnalysis.SortSign` | webapp/src/components/Metrics/PerformanceAnalysis.tsx:151 | the sign is 1 exactly when the sort model's first entry is descending, and -1 otherwise |
| `PerformanceAnalysis.CustomSort` | webapp/src/components/Metrics/PerformanceAnalysis.tsx:143-158 | an overall row on the left compares as +1 when descending and -1 otherwise; on the right (against a non-overall left) as -1 when descending and +1 otherwise; two other rows compare as the fallback |
| `PerformanceAnalysis.OverallRowSortsFirst` | webapp/src/components/Metrics/PerformanceAnalysis.tsx:143-154 | under the grid's direction handling, the overall row sorts before any other row, ascending and descending, on either side of the comparison |
| `PerformanceAnalysis.CustomSortAntisymmetric` | webapp/src/components/Metrics/PerformanceAnalysis.tsx:143-158 | for an antisymmetric fallback, the comparator is antisymmetric on every pair that is not the overall row twice |
| `PerformanceAnalysis.SortedStartsWithOverall` | webapp/src/components/Metrics/PerformanceAnalysis.tsx:143-158 | every order the grid can produce with this comparator starts with the overall row, and the other rows follow the fallback |
| `PerformanceAnalysis.ClampedStep` | webapp/src/components/Metrics/PerformanceAnalysis.tsx:132-138 | past `MAX_PAGE_SIZE` the step is 0; otherwise the next count is at most `MAX_PAGE_SIZE` or all rows; a step that stays within the limit is kept |
| `PerformanceAnalysis.ClampNextStepUp` | webapp/src/components/Metrics/PerformanceAnalysis.tsx:134-138 | overwrites `nextStepUp` in place with the clamped step and changes nothing else |
| `PerformanceAnalysis.PageSizeStaysBounded` | webapp/src/components/Metrics/PerformanceAnalysis.tsx:132-138 | from a page of at most `MAX_PAGE_SIZE` rows or of all rows, any run of clamped "see more" steps keeps the page at most `MAX_PAGE_SIZE` rows or at all rows |
| `PerformanceAnalysis.InitialPageStaysBounded` | webapp/src/components/Metrics/PerformanceAnalysis.tsx:128-138 | starting from `INITIAL_NUMBER_VISIBLE + 1` rows, every page shown has at most `MAX_PAGE_SIZE` rows or all rows |
| `PerformanceAnalysis.Put` | webapp/src/components/Metrics/PerformanceAnalysis.tsx:285-289 | an object property assignment: the key maps to the new value, other keys are unchanged, an existing key keeps its place (same length, every entry keeps its key) and a new key goes last, and keys stay distinct |
| `PerformanceAnalysis.Spread` | webapp/src/components/Metrics/PerformanceAnalysis.tsx:285-289 | an object spread has the keys of both objects and keeps keys distinct |
| `PerformanceAnalysis.SpreadLookup` | webapp/src/components/Metrics/PerformanceAnalysis.tsx:285-289 | in `{...o, ...p}` a key of `p` takes `p`'s value, and any other key keeps `o`'s |
| `PerformanceAnalysis.SpreadShape` | webapp/src/components/Metrics/PerformanceAnalysis.tsx:285-289 | `{...o, ...p}` is `o`'s entries in order with `p`'s values, then `p`'s other entries in order |
| `PerformanceAnalysis.RowSearch` | webapp/src/components/Metrics/PerformanceAnalysis.tsx:283-290 | a row's link parameters have distinct keys: the pipeline's, plus the selected option for a non-overall row |
| `PerformanceAnalysis.RowSearchLookup` | webapp/src/components/Metrics/PerformanceAnalysis.tsx:283-290 | a pipeline parameter wins; otherwise a non-overall row maps the selected option to `[filterValue]`; no other key is present |
| `PerformanceAnalysis.OverallRowSearchIsPipeline` | webapp/src/components/Metrics/PerformanceAnalysis.tsx:285-289 | the overall row's parameters are exactly the pipeline's, in their order |
| `PerformanceAnalysis.FilterRowSearchShape` | webapp/src/components/Metrics/PerformanceAnalysis.tsx:285-289 | a non-overall row's parameters are the selected option first (`[filterValue]` unless the pipeline overrides it), then the pipeline's other parameters in their order |

## Left out

- `webapp/src/components/Analysis/HoverableDataCell.tsx` is not part of this model. It measures DOM widths, places a popper and listens for key presses, with no logic beyond one comparison.
- Rendering, MUI components, styling, React state and memoisation, and data fetching in `PerformanceAnalysis.tsx` are not modelled. That includes the loading and error display and the column definitions. The response is a parameter of `BuildRows`.
- The outcome ratio (`outcomeCount / utteranceCount`, NaN for a zero count) and the number formatting are not modelled. They are floating-point display values.
- `gridStringOrNumberComparator` is not modelled. It is a parameter, the fallback comparator. Its antisymmetry is assumed only where `CustomSortAntisymmetric` requires it.
- The grid's sorting algorithm is represented only by the pairwise order `SortedBy`. `GridOrder` is the grid's own handling of a descending column (negating the comparator). It is not part of the repository.
- `useMoreLess` and `SeeMoreLess` are not part of this model. `numberVisible` and `nextStepUp` are inputs. `VisibleAfter` assumes that "see more" adds the clamped step. "See less" is not modelled.
- `MAX_PAGE_SIZE` = 100 comes from `@mui/x-data-grid`, outside the repository. `INITIAL_NUMBER_VISIBLE` = 10 is an assumed value: it is defined in `components/SeeMoreLess`, which is in the repository but not part of this model. Only `InitialPageStaysBounded` depends on the two values, through `INITIAL_NUMBER_VISIBLE + 1 <= MAX_PAGE_SIZE`.
- `constructSearchString` and the link's path template are not modelled: the serialisation and the job id and split segments are left out. JavaScript's ordering of integer-like keys ahead of other keys is not modelled.
- `BuildRows` requires a non-empty `metricsOverall` and a present option. With an empty list, JavaScript would build an overall row holding only its id. With a missing option, `undefined?.map` yields `undefined` and the spread throws.
- `SortSign` and `CustomSort` require a non-empty sort model, since `sortModel[0].sort` would throw on an empty one. The sorting lemmas also need a direction in the first entry, because an unsorted column is not sorted. The table starts from `INITIAL_SORT_MODEL` and passes `sortingOrder={["desc", "asc"]}` to the grid (`PerformanceAnalysis.tsx:341`). That the grid then only ever holds one column sorted in one of those directions (`SortModelInOrder`) is the grid's behaviour, assumed here; `InitialSortModelInOrder` shows that such models meet these requirements.
- FilterDatasetSplit: does not model the exceptions. Its precondition `Fits` is sufficient for `filter_dataset_split` to run without raising, not necessary. `Fits` excludes:
  - a missing selected data-action column (`KeyError`);
  - an unknown smart-tag family (`KeyError`);
  - a selected tag of an applied family that is not a column;
  - a confidence cell that is not a non-empty list whose first item is a number (a bool, an int or a float), when the confidence step applies;
  - a `model_predictions` cell that is not a non-empty list or a non-empty string, when the prediction step applies without postprocessing;
  - a text cell that is not a string, when the utterance step applies.
- FilterDatasetSplit: `Fits` also excludes some splits `filter_dataset_split` processes. A malformed cell on a row that an earlier step already removed is never read. Python's `any` stops at the first selected data action that is set, so a later missing data-action column is not always reached.
- The docstring's `ValueError` is not modelled, because the code never raises it. A missing column skips the criterion instead (`AbsentColumnsSkipCriteria`).
- The HuggingFace `Dataset` is reduced to a column set and a sequence of rows. Caching, batching and index mappings are left out. `ProjectConfig` is reduced to the label and text column names. `SMART_TAGS_FAMILY_MAPPING` and `ALL_DATA_ACTIONS` are parameters (`TagTables`).
- Python equality across types (`1 == 1.0 == True`) is not modelled. Cell values compare structurally.
- `str.lower()` folds ASCII letters only. Unicode case mapping is not modelled.
- Confidences are reals, so floating-point rounding is not modelled.
