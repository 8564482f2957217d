# Verified model: fault-isolating plot runner and vector-row cleaning

This project models, in Dafny, the two pieces of sequential logic in a
word-embedding bias replication repository.

1. **The fault-isolating batch runner of the final-plots driver**
   (`create_final_plots_all_sgns_google_robust.py`).
   - `execute_plot_safely` calls one plotting function inside
     `try`/`except Exception` and turns a raised exception into `False`.
   - `execute_plot_list` runs one category's plot list in order. It counts
     successes and failures and records every failure: the category, the
     1-based plot number, the function name, and an argument summary cut to
     100 characters.
   - `main` sets the default plots folder and loads the data, returning early
     if loading raises. It then sets each destination folder in turn, runs
     that folder's categories, sums the counts and concatenates the failure
     lists. It ends with the success rate and either the "all plots generated
     successfully" line or the list of failures.
2. **Word cleaning and row filtering of the vector-normalisation script**
   (`dataset_utilities/coha_vector_normalize.py`).
   - The word of a row is `re.sub('[^a-z]+', '', row[0].strip().lower())`.
   - Rows with no fields, and rows whose word is shorter than two letters,
     are skipped.
   - `load_vectors` maps each word to its non-empty coordinate fields; a
     later row with the same word overwrites an earlier one.
   - `normalize` classes every kept row as zero-norm (counted, not written)
     or normal (counted and written). A written row has the cleaned word in
     field 0 and every non-empty coordinate divided by the norm.

Files:

- `strings.dfy` (module `Strings`): the Python string operations used by the
  cleaning: ASCII `str.lower()`, `str.strip()` over Python's whitespace set,
  and the `[^a-z]+` deletion.
- `plot_runner.dfy` (module `PlotRunner`): tasks, outcomes, failure records,
  the three runner functions, the event trace of folder changes and calls,
  and the fixed folder/category layout of `main`.
- `vector_normalize.dfy` (module `VectorNormalize`): word cleaning,
  `load_vectors`, and the classify/rewrite/count loop of `normalize`.

How the environment is represented:

- A call `plot_func(*plot_args)` is a `Task` record. It holds the function's
  `__name__`, the `repr` text of each argument, and its `Outcome`: `Returned`
  or `Raised(kind, message)`.
- The process-wide plots folder is a trace of `SetFolder` and `Called`
  events. `Observe` replays the trace the way the global variable changes,
  and pairs every call with the folder active when it runs.
- `load_file` is a `LoadResult` parameter.
- In `normalize`, "the norm is below `1e-2`" is a predicate parameter applied
  to the row's non-empty coordinate fields. A row with no non-empty coordinate
  has norm 0 (`np.linalg.norm([])`) and is always zero-norm, whatever the
  predicate says. A divided coordinate is recorded as `Scaled(text)`.

The model follows the code as written:

- A failed load is caught, printed, and `main` returns (lines 113-120). It is
  not propagated as a fatal error.
- The success rate (line 221) divides by the number of attempted plots with
  no zero guard. `SuccessRate` and `Main` therefore require at least one
  task. `DeclaredPlanIsNonEmpty` shows that the plan `main` declares always
  has 31 tasks.
- Only exceptions derived from `Exception` are caught (line 49).

## Model

| member | source | states |
|---|---|---|
| `PlotRunner.ExecutePlotSafely` | create_final_plots_all_sgns_google_robust.py:38-58 | The result is true exactly when the task does not raise. A raised exception comes back as `false` and is never passed on. The task is called exactly once, with its own arguments, and never retried. |
| `PlotRunner.ArgsSummary` | create_final_plots_all_sgns_google_robust.py:96 | The summary is at most 100 characters. It is a prefix of the text of the argument list after the first argument. It is the whole text when that text fits, and exactly 100 characters otherwise. |
| `PlotRunner.ArgsSummaryIgnoresFirst` | create_final_plots_all_sgns_google_robust.py:96 | Two argument lists that differ only in their first argument (the data table) have the same summary. |
| `PlotRunner.ExecutePlotList` | create_final_plots_all_sgns_google_robust.py:72-105 | `successful + failed` equals the number of tasks. `failed` equals an independent count of the raising tasks. The failure list has exactly `failed` entries. The calls made are one per task, in declared order, so a failure does not stop later tasks. |
| `PlotRunner.ExecutePlotListRecordsSound` | create_final_plots_all_sgns_google_robust.py:81-97 | Every failure record names a raising task by its 1-based position. It carries that task's category, function name and argument summary. The records are in strictly increasing task order. |
| `PlotRunner.ExecutePlotListRecordsComplete` | create_final_plots_all_sgns_google_robust.py:81-97 | A task has a failure record exactly when it raises. Both directions are stated, for every position. |
| `PlotRunner.RunCategories` | create_final_plots_all_sgns_google_robust.py:208-212 | Folding a folder's categories adds each category's success and failure counts to the totals. It appends the category failure lists in category order and appends each category's calls to the trace. |
| `PlotRunner.CategoryCounts` | create_final_plots_all_sgns_google_robust.py:208-212 | Over a folder's categories, the summed successes and failures equal the number of declared tasks. The concatenated failure list has exactly as many entries as the summed failures. |
| `PlotRunner.RunFolders` | create_final_plots_all_sgns_google_robust.py:205-212 | The run totals are the sums of the per-category counts over all folders. The run failure list is the concatenation of the category lists in folder-then-category order. The trace sets each folder and then makes that folder's calls. |
| `PlotRunner.PlanCounts` | create_final_plots_all_sgns_google_robust.py:205-218 | Over the whole plan, `total_successful + total_failed` is the number of declared tasks. `all_failed_plots` has exactly `total_failed` entries. |
| `PlotRunner.SuccessRate` | create_final_plots_all_sgns_google_robust.py:221 | Given at least one attempt, the rate lies between 0 and 100. It is 100 exactly when nothing failed and 0 exactly when nothing succeeded. |
| `PlotRunner.FinalReport` | create_final_plots_all_sgns_google_robust.py:223-232 | The "all plots generated successfully" branch is taken exactly when the failure list is empty. Otherwise the whole failure list is listed. |
| `PlotRunner.Main` | create_final_plots_all_sgns_google_robust.py:108-232 | A failed load aborts the run: the trace only sets the default folder, so no task is called. A successful load completes the run. The totals count every declared task and equal the folder sums. The failure list is the ordered concatenation. The success branch and a 100% rate occur exactly when there are no failures. |
| `PlotRunner.ObserveAppend` | create_final_plots_all_sgns_google_robust.py:110 | Replaying the global plots folder over two stretches of the run is replaying the first, then the second from the folder the first left active. The last `set_plots_folder` before a call decides where that call writes. |
| `PlotRunner.ObserveCalls` | create_final_plots_all_sgns_google_robust.py:206-209 | A stretch of plotting calls runs entirely in the folder active before it and leaves that folder active. |
| `PlotRunner.ObservePlanTrace` | create_final_plots_all_sgns_google_robust.py:205-212 | Replaying the folder loop's trace from any active folder calls every task of the plan once, in folder, category and task order. Each call happens while its own folder is the active one, whatever folder was active before the loop. |
| `PlotRunner.MainFollowsSchedule` | create_final_plots_all_sgns_google_robust.py:205-212 | Replaying `main`'s trace shows every declared task called exactly once, in folder, category and task order. Each call runs while its own folder is the active plots folder, so the folder is set before its categories run. |
| `PlotRunner.DeclaredPlanIsNonEmpty` | create_final_plots_all_sgns_google_robust.py:184-203 | Any plan with the folders, category names and plot-list lengths that `main` declares has 31 tasks. So `main` can complete, and its division is safe. |
| `PlotRunner.DeclaredCategoryNamesDistinct` | create_final_plots_all_sgns_google_robust.py:184-203 | The eight category names of the declared plan are pairwise distinct, so every failure record names its category unambiguously. |
| `Strings.LowerChar` | dataset_utilities/coha_vector_normalize.py:15 | ASCII lower-casing of one character: the result is in `a`-`z` exactly when the input is an ASCII letter. Each capital `A`-`Z` maps to its own lower-case letter. Every character outside `A`-`Z` is left as it is. |
| `Strings.LowerPointwise` | dataset_utilities/coha_vector_normalize.py:15 | ASCII lower-casing of a text keeps its length and applies `LowerChar` at each position. |
| `Strings.StripLeftCuts` | dataset_utilities/coha_vector_normalize.py:15 | The leading part of `str.strip()` removes a prefix made only of whitespace (Python's `isspace` set). What remains is a suffix of the input that is empty or starts with a non-whitespace character. |
| `Strings.StripRightCuts` | dataset_utilities/coha_vector_normalize.py:15 | The trailing part of `str.strip()` removes a suffix made only of whitespace. What remains is a prefix of the input that is empty or ends with a non-whitespace character. |
| `Strings.KeepLowerLetters` | dataset_utilities/coha_vector_normalize.py:15 | The substitution leaves only characters `a`-`z` and never lengthens the text. |
| `Strings.KeepLowerLettersKeepsLetters` | dataset_utilities/coha_vector_normalize.py:15 | The substitution keeps every occurrence of every lower-case letter of its input. |
| `Strings.KeepLowerLettersIgnoresStrip` | dataset_utilities/coha_vector_normalize.py:15 | Stripping whitespace before lower-casing and filtering does not change the result. |
| `VectorNormalize.CleanWord` | dataset_utilities/coha_vector_normalize.py:15 | The cleaned word contains only the characters `a`-`z`. |
| `VectorNormalize.CleanWordIsLoweredLetters` | dataset_utilities/coha_vector_normalize.py:15 | The cleaned word equals an independent definition: the ASCII letters of the field, in order, each lower-cased. |
| `VectorNormalize.CleanWordIdempotent` | dataset_utilities/coha_vector_normalize.py:67 | Cleaning an already-cleaned word leaves it unchanged. |
| `VectorNormalize.NonEmptyFields` | dataset_utilities/coha_vector_normalize.py:19 | The coordinate list contains no empty field and is no longer than its input. |
| `VectorNormalize.NonEmptyFieldsKeepsFields` | dataset_utilities/coha_vector_normalize.py:19 | Every non-empty field is kept, as often as it occurs in the row. |
| `VectorNormalize.NonEmptyFieldsAppend` | dataset_utilities/coha_vector_normalize.py:19 | The filter works field by field: filtering a concatenation is the concatenation of the filtered parts. So the coordinates keep their original order. |
| `VectorNormalize.NonEmptyFieldsOne` | dataset_utilities/coha_vector_normalize.py:19 | A single field is kept when it is non-empty and dropped when it is empty. |
| `VectorNormalize.LoadVectors` | dataset_utilities/coha_vector_normalize.py:6-21 | The table has at most one entry per row read. Its keys, entries and overwriting are stated by the four `LoadVectors…` lemmas below. |
| `VectorNormalize.LoadVectorsEntries` | dataset_utilities/coha_vector_normalize.py:6-21 | Every stored word has at least two letters, all in `a`-`z`. Every stored coordinate list holds only non-empty fields. |
| `VectorNormalize.LoadVectorsWords` | dataset_utilities/coha_vector_normalize.py:12-20 | The stored words are exactly the cleaned words of the kept rows. Rows with no fields or with a word shorter than two letters contribute nothing. |
| `VectorNormalize.LoadVectorsLastRowWins` | dataset_utilities/coha_vector_normalize.py:20 | The coordinates stored for a word are those of the last kept row with that word. Later rows overwrite earlier ones. |
| `VectorNormalize.LoadVectorsSize` | dataset_utilities/coha_vector_normalize.py:20 | The table holds at most one entry per kept row. Rows sharing a word collapse into one entry. |
| `VectorNormalize.Survivors` | dataset_utilities/coha_vector_normalize.py:62-70 | A row survives the filter exactly when it is in the input, has a first field, and cleans to at least two letters. |
| `VectorNormalize.SurvivorsCount` | dataset_utilities/coha_vector_normalize.py:62-70 | Each kept row survives as many times as it occurs in the input, so duplicate rows are each counted. No other row survives. |
| `VectorNormalize.SurvivorsAppend` | dataset_utilities/coha_vector_normalize.py:62-70 | The filter works row by row: the survivors of a concatenation are the survivors of each part, in file order. |
| `VectorNormalize.ClassMembership` | dataset_utilities/coha_vector_normalize.py:73-79 | A row is counted in `countnorm0` exactly when it is a kept input row with a small norm. It is written exactly when it is a kept input row whose norm is not small. Both directions are stated. |
| `VectorNormalize.EmptyVectorNeverWritten` | dataset_utilities/coha_vector_normalize.py:73-79 | A kept row with no non-empty coordinate has norm 0. It is counted as zero-norm and never written, whatever the norm predicate says. |
| `VectorNormalize.ClassesPartitionSurvivors` | dataset_utilities/coha_vector_normalize.py:76-79 | No row is in both the zero-norm class and the normal class. The two classes together have as many rows as survive the filter. |
| `VectorNormalize.RewriteRow` | dataset_utilities/coha_vector_normalize.py:66-84 | The written row has as many fields as the input row. Field 0 is the cleaned word. Every non-empty later field is replaced by its scaled value, and every empty field stays empty. |
| `VectorNormalize.Normalize` | dataset_utilities/coha_vector_normalize.py:50-86 | `countnorm0 + countnormal` equals the number of surviving rows. Each count equals the size of its class. Exactly `countnormal` rows are written, and the k-th written row is the rewrite of the k-th normal row. |
| `VectorNormalize.WrittenWordsAreLoaded` | dataset_utilities/coha_vector_normalize.py:62-70 | Every row that `normalize` writes is a kept row whose word `load_vectors` also stores for the same input. |

## Left out

- Printed progress and summary text is not modelled. This covers the banners, plot labels, failure listings and the traceback from `traceback.format_exc()`. It is diagnostic output only.
- The `.1f` formatting of the success rate is not modelled. `SuccessRate` is an exact rational.
- Exceptions outside `Exception`, such as `KeyboardInterrupt` and `SystemExit`, pass through `except Exception` and would end the run. The model's `Outcome` has no such case.
- `PlotRunner.ExecutePlotSafely` does not model a failure while printing `plot_func.__name__`. All plotting functions are plain functions with a name.
- `PlotRunner.ExecutePlotSafely`, `PlotRunner.ExecutePlotList` and `PlotRunner.Main` assume that no `print` ever raises. On a standard output that cannot encode ✓ or ✗, the `print` at line 46 would raise inside the `try`, and the one at line 51 would raise again from the handler. The prints outside any `try` could also raise: lines 76-79, 99-103, 112, 115, 118 and 215-234. Any such exception would escape `execute_plot_safely` or `execute_plot_list` and end `main`. The model treats printing as output only.
- `PlotRunner.ExecutePlotList` takes each argument's `repr` text once and uses it both for the call and for the failure record. The source builds `str(plot_args[1:])[:100]` at line 96, after the call at line 86, from the same argument objects. A plotting function that changes a list argument in place would show the changed contents in `args_summary`. The model assumes plotting functions do not change their arguments.
- `PlotRunner.Main` assumes `set_plots_folder` never raises. It is called outside any `try` at lines 110 and 206. It belongs to the plotting helpers, which are not part of this model.
- `PlotRunner.Observe` assumes that only `set_plots_folder` in `main` changes the global plots folder, and that a plotting function never changes it. `ObservePlanTrace` and `MainFollowsSchedule` (each call runs in its own folder) depend on this.
- The plotting, statistics and data-loading functions are not part of this model. They come from `plot_creation` and `utilities`, which are not shown. Each call is an opaque task with a given outcome.
- Building the plot lists (lines 123-176) is not modelled; `Main` takes the plan as built. Those lines look up `rows['google']` and `rows['sgns']` outside any `try`, so a loaded table without these keys would raise `KeyError` out of `main`.
- `repr` of the argument objects is not computed. Each argument is given by its `repr` text, and `ListRepr` joins these texts the way `str` of a list does.
- `PlotRunner.SuccessRate` and `PlotRunner.Main` require at least one task instead of modelling the `ZeroDivisionError` that an empty plan would raise. The plan `main` declares always has 31 tasks.
- `Strings.LowerChar` and `Strings.Lower` model ASCII lower-casing only, not Python's full Unicode `str.lower()`. Python lower-cases non-ASCII capitals (`'À'` becomes `'à'`) and maps the Kelvin sign U+212A to `k`. It can lengthen the text: `'İ'` becomes two code points. It also lower-cases the Greek capital sigma by context, to `'ς'` at the end of a word and `'σ'` elsewhere. The model leaves every non-ASCII character unchanged.
- `VectorNormalize.CleanWord` inherits this. The Kelvin sign lower-cases to `k`, and `'İ'` lower-cases to `i` plus a combining dot. The source keeps those ASCII letters, but the model drops the original characters. Every other non-ASCII character is dropped by the `[^a-z]+` deletion in both.
- Float conversion is not modelled. Coordinates stay as text, so the `ValueError` that `float()` raises on a non-numeric field is not modelled.
- The norm computation (`np.linalg.norm`) of a non-empty coordinate list is a predicate parameter, so the `1e-2` threshold is not modelled for it. An empty list is always zero-norm. The element-wise division only records which field was divided.
- File I/O is not modelled: `open`, `os.makedirs`, CSV quoting, and how the writer prints floats. A file is a sequence of already-split rows, and the written file is the sequence of written rows.
- `find_vector_norms` and `print_sizes` are not modelled. They compute the float mean, variance and median and check files on disk.
- The script's `__main__` loop over years is not modelled.
- `dataset_utilities/coha_vector_clean.py` is not part of this model. It does numpy/pickle loading and CSV writing with a per-row exception catch around I/O.
