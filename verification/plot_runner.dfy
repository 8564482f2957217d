/**
 The fault-isolating batch runner of the final-plots driver script.

 A plotting task is a function name, the text of its positional arguments and
 the outcome of calling it: the call either returns or raises an exception.
 `ExecutePlotSafely` turns a raised exception into `false`;
 `ExecutePlotList` runs one category's tasks in order and tallies them; `Main`
 sets the process-wide plots folder for each destination, runs that
 destination's categories and sums everything into one report.

 The process-wide folder is modelled by a trace of events: every
 `set_plots_folder` call and every call of a plotting function is appended in
 the order it happens, and `Observe` replays the trace the way the global
 variable would evolve, pairing every plotting call with the folder that is
 active when it runs.
 */
module PlotRunner {

  /** What calling `plot_func(*plot_args)` does, as far as the runner can tell. */
  datatype Outcome = Returned | Raised(kind: string, message: string)

  /**
   One `[function, args]` entry of a plot list: the function's `__name__`,
   the `repr` text of each positional argument, and what the call does.
   */
  datatype Task = Task(funcName: string, args: seq<string>, outcome: Outcome)

  /** One call of a plotting function, as made by `plot_func(*plot_args)`. */
  datatype Call = Call(funcName: string, args: seq<string>)

  /** The observable effects of a run, in the order they happen. */
  datatype Event = SetFolder(path: string) | Called(call: Call)

  /** What `execute_plot_safely` produces: its boolean result and the calls it made. */
  datatype Attempt = Attempt(success: bool, calls: seq<Call>)

  /** One dictionary appended to `failed_plots`. */
  datatype FailedPlot = FailedPlot(category: string, plotNumber: nat, funcName: string, argsSummary: string)

  /** The triple `execute_plot_list` returns, plus the calls it made. */
  datatype CategoryResult = CategoryResult(successful: nat, failed: nat, failedPlots: seq<FailedPlot>, calls: seq<Call>)

  /** A named plot list. */
  datatype Category = Category(name: string, tasks: seq<Task>)

  /** A destination folder with the categories whose plots go there. */
  datatype Folder = Folder(path: string, categories: seq<Category>)

  /** The running totals of `main`: `total_successful`, `total_failed`, `all_failed_plots`, plus the trace so far. */
  datatype Totals = Totals(successful: nat, failed: nat, failedPlots: seq<FailedPlot>, trace: seq<Event>)

  /** Whether `load_file` returned the data table or raised. */
  datatype LoadResult = Loaded | LoadRaised(kind: string, message: string)

  /** The last part of the final summary: the success line, or the itemised failures. */
  datatype Report = AllSucceeded | FailuresListed(failedPlots: seq<FailedPlot>)

  /** What `main` does: return early after a failed load, or finish with its summary. */
  datatype MainResult =
    | Aborted(trace: seq<Event>)
    | Completed(totals: Totals, successRate: real, report: Report)

  /** The longest argument summary a failure record keeps. */
  const SummaryLimit: nat := 100

  /** The folder `main` sets before it loads the data. */
  const PlotsFolder := "plots/"

  // ---------------------------------------------------------------------
  // Argument summaries: `str(plot_args[1:])[:100]`
  // ---------------------------------------------------------------------

  function Join(items: seq<string>, sep: string): string {
    if |items| == 0 then ""
    else if |items| == 1 then items[0]
    else items[0] + sep + Join(items[1..], sep)
  }

  /** `str` of a Python list whose elements have the given `repr` texts. */
  function ListRepr(items: seq<string>): string {
    "[" + Join(items, ", ") + "]"
  }

  /** `plot_args[1:]`: everything after the first argument (empty when there is none). */
  function AfterFirst(args: seq<string>): seq<string> {
    if |args| == 0 then [] else args[1..]
  }

  /** The `args_summary` of a failure record. */
  function ArgsSummary(args: seq<string>): (r: string)
    ensures |r| <= SummaryLimit
    ensures r <= ListRepr(AfterFirst(args))
    ensures |ListRepr(AfterFirst(args))| <= SummaryLimit ==> r == ListRepr(AfterFirst(args))
    ensures |ListRepr(AfterFirst(args))| >= SummaryLimit ==> |r| == SummaryLimit
  {
    var text := ListRepr(AfterFirst(args));
    if |text| <= SummaryLimit then text else text[..SummaryLimit]
  }

  /** The first argument (the whole data table in the source) never shows in the summary. */
  lemma ArgsSummaryIgnoresFirst(first1: string, first2: string, rest: seq<string>)
    ensures ArgsSummary([first1] + rest) == ArgsSummary([first2] + rest)
  {
    assert AfterFirst([first1] + rest) == rest == AfterFirst([first2] + rest);
  }

  // ---------------------------------------------------------------------
  // One task: `execute_plot_safely`
  // ---------------------------------------------------------------------

  function CallOf(t: Task): Call {
    Call(t.funcName, t.args)
  }

  /**
   Calls the task once inside `try`/`except Exception`. The result is a plain
   boolean: the exception of a failing task is caught, never passed on.
   */
  function ExecutePlotSafely(t: Task): (a: Attempt)
    ensures a.success <==> !t.outcome.Raised?
    ensures a.calls == [CallOf(t)]
  {
    var call := CallOf(t);
    match t.outcome
    case Returned => Attempt(true, [call])
    case Raised(_, _) => Attempt(false, [call])
  }

  // ---------------------------------------------------------------------
  // One category: `execute_plot_list`
  // ---------------------------------------------------------------------

  /** The record appended for the task at 1-based position `plotNumber` when it fails. */
  function FailureRecord(category: string, plotNumber: nat, t: Task): FailedPlot {
    FailedPlot(category, plotNumber, t.funcName, ArgsSummary(t.args))
  }

  /** How many of the tasks raise (an independent count, front to back). */
  function NumRaised(tasks: seq<Task>): nat {
    if |tasks| == 0 then 0
    else (if tasks[0].outcome.Raised? then 1 else 0) + NumRaised(tasks[1..])
  }

  lemma {:induction false} NumRaisedSnoc(tasks: seq<Task>, t: Task)
    ensures NumRaised(tasks + [t]) == NumRaised(tasks) + (if t.outcome.Raised? then 1 else 0)
  {
    if |tasks| > 0 {
      assert (tasks + [t])[1..] == tasks[1..] + [t];
      NumRaisedSnoc(tasks[1..], t);
    } else {
      assert (tasks + [t])[1..] == [];
    }
  }

  /** The calls a plot list makes when every task is called once, in declared order. */
  function TaskCalls(tasks: seq<Task>): seq<Call> {
    seq(|tasks|, i requires 0 <= i < |tasks| => CallOf(tasks[i]))
  }

  /**
   Runs every task of the list in order, numbering them from 1, counting
   successes and failures and recording each failure. A failing task does
   not stop the later ones: every task is called exactly once.
   */
  function ExecutePlotList(tasks: seq<Task>, category: string): (r: CategoryResult)
    ensures r.successful + r.failed == |tasks|
    ensures r.failed == NumRaised(tasks)
    ensures |r.failedPlots| == r.failed
    ensures r.calls == TaskCalls(tasks)
    decreases |tasks|
  {
    if |tasks| == 0 then CategoryResult(0, 0, [], [])
    else
      var n := |tasks|;
      var earlier := tasks[..n - 1];
      var prev := ExecutePlotList(earlier, category);
      var t := tasks[n - 1];
      var attempt := ExecutePlotSafely(t);
      assert tasks == earlier + [t];
      NumRaisedSnoc(earlier, t);
      assert TaskCalls(tasks) == TaskCalls(earlier) + [CallOf(t)];
      if attempt.success then
        CategoryResult(prev.successful + 1, prev.failed, prev.failedPlots, prev.calls + attempt.calls)
      else
        CategoryResult(prev.successful, prev.failed + 1, prev.failedPlots + [FailureRecord(category, n, t)],
                       prev.calls + attempt.calls)
  }

  /**
   Each record names a failing task of the list by its 1-based position,
   with that task's function and argument summary.
   */
  ghost predicate RecordsName(tasks: seq<Task>, category: string, records: seq<FailedPlot>) {
    forall j :: 0 <= j < |records| ==>
      && 1 <= records[j].plotNumber <= |tasks|
      && tasks[records[j].plotNumber - 1].outcome.Raised?
      && records[j] == FailureRecord(category, records[j].plotNumber, tasks[records[j].plotNumber - 1])
  }

  /** The records are in task order. */
  ghost predicate InTaskOrder(records: seq<FailedPlot>) {
    forall j, k :: 0 <= j < k < |records| ==> records[j].plotNumber < records[k].plotNumber
  }

  /** A task has a record exactly when it raises. */
  ghost predicate RecordsEveryFailure(tasks: seq<Task>, category: string, records: seq<FailedPlot>) {
    forall i :: 0 <= i < |tasks| ==>
      (tasks[i].outcome.Raised? <==> FailureRecord(category, i + 1, tasks[i]) in records)
  }

  /** One more task keeps the failure list sound and in task order. */
  lemma RecordsSoundStep(earlier: seq<Task>, t: Task, category: string, prev: seq<FailedPlot>)
    requires RecordsName(earlier, category, prev) && InTaskOrder(prev)
    ensures var records := if t.outcome.Raised? then prev + [FailureRecord(category, |earlier| + 1, t)] else prev;
      RecordsName(earlier + [t], category, records) && InTaskOrder(records)
  {
    var tasks := earlier + [t];
    var n := |tasks|;
    if t.outcome.Raised? {
      var records := prev + [FailureRecord(category, n, t)];
      forall j | 0 <= j < |records|
        ensures 1 <= records[j].plotNumber <= n
        ensures tasks[records[j].plotNumber - 1].outcome.Raised?
        ensures records[j] == FailureRecord(category, records[j].plotNumber, tasks[records[j].plotNumber - 1])
      {
        if j < |prev| {
          assert records[j] == prev[j];
          assert tasks[prev[j].plotNumber - 1] == earlier[prev[j].plotNumber - 1];
        }
      }
      forall j, k | 0 <= j < k < |records| ensures records[j].plotNumber < records[k].plotNumber {
        if k < |prev| {
          assert records[j] == prev[j] && records[k] == prev[k];
        }
      }
    } else {
      forall j | 0 <= j < |prev|
        ensures tasks[prev[j].plotNumber - 1] == earlier[prev[j].plotNumber - 1]
      {
      }
    }
  }

  /** Every record of a category's failure list names a failing task, and the records are in task order. */
  lemma {:induction false} ExecutePlotListRecordsSound(tasks: seq<Task>, category: string)
    ensures RecordsName(tasks, category, ExecutePlotList(tasks, category).failedPlots)
    ensures InTaskOrder(ExecutePlotList(tasks, category).failedPlots)
    decreases |tasks|
  {
    if |tasks| > 0 {
      var n := |tasks|;
      var earlier := tasks[..n - 1];
      var t := tasks[n - 1];
      assert tasks == earlier + [t];
      ExecutePlotListRecordsSound(earlier, category);
      RecordsSoundStep(earlier, t, category, ExecutePlotList(earlier, category).failedPlots);
    }
  }

  /** One more task keeps the failure list complete, when earlier records all number earlier tasks. */
  lemma RecordsEveryFailureStep(earlier: seq<Task>, t: Task, category: string, prev: seq<FailedPlot>)
    requires RecordsEveryFailure(earlier, category, prev)
    requires forall j :: 0 <= j < |prev| ==> prev[j].plotNumber <= |earlier|
    ensures RecordsEveryFailure(earlier + [t], category,
                                if t.outcome.Raised? then prev + [FailureRecord(category, |earlier| + 1, t)] else prev)
  {
    var tasks := earlier + [t];
    var n := |tasks|;
    var last := FailureRecord(category, n, t);
    var records := if t.outcome.Raised? then prev + [last] else prev;
    assert last !in prev by {
      forall j | 0 <= j < |prev| ensures prev[j] != last {
        assert prev[j].plotNumber <= n - 1;
      }
    }
    forall i | 0 <= i < n
      ensures tasks[i].outcome.Raised? <==> FailureRecord(category, i + 1, tasks[i]) in records
    {
      var rec := FailureRecord(category, i + 1, tasks[i]);
      if i < n - 1 {
        assert tasks[i] == earlier[i];
        assert rec != last;
      }
    }
  }

  /**
   The failure list of a category holds a record for a task exactly when
   that task raises; with `ExecutePlotListRecordsSound`, it is one record
   per failing task, in task order, and nothing else.
   */
  lemma {:induction false} ExecutePlotListRecordsComplete(tasks: seq<Task>, category: string)
    ensures RecordsEveryFailure(tasks, category, ExecutePlotList(tasks, category).failedPlots)
    decreases |tasks|
  {
    if |tasks| > 0 {
      var n := |tasks|;
      var earlier := tasks[..n - 1];
      var t := tasks[n - 1];
      assert tasks == earlier + [t];
      ExecutePlotListRecordsComplete(earlier, category);
      ExecutePlotListRecordsSound(earlier, category);
      RecordsEveryFailureStep(earlier, t, category, ExecutePlotList(earlier, category).failedPlots);
    }
  }

  // ---------------------------------------------------------------------
  // The whole run: the folder/category loop of `main`
  // ---------------------------------------------------------------------

  function SumSuccessful(cats: seq<Category>): nat {
    if |cats| == 0 then 0
    else ExecutePlotList(cats[0].tasks, cats[0].name).successful + SumSuccessful(cats[1..])
  }

  function SumFailed(cats: seq<Category>): nat {
    if |cats| == 0 then 0
    else ExecutePlotList(cats[0].tasks, cats[0].name).failed + SumFailed(cats[1..])
  }

  /** The categories' failure lists, concatenated in order. */
  function ConcatFailures(cats: seq<Category>): seq<FailedPlot> {
    if |cats| == 0 then []
    else ExecutePlotList(cats[0].tasks, cats[0].name).failedPlots + ConcatFailures(cats[1..])
  }

  function NumTasks(cats: seq<Category>): nat {
    if |cats| == 0 then 0 else |cats[0].tasks| + NumTasks(cats[1..])
  }

  /** The calls the categories make when each task is called once, in declared order. */
  function CategoryCalls(cats: seq<Category>): seq<Event> {
    if |cats| == 0 then []
    else AsEvents(TaskCalls(cats[0].tasks)) + CategoryCalls(cats[1..])
  }

  function AsEvents(calls: seq<Call>): seq<Event> {
    seq(|calls|, i requires 0 <= i < |calls| => Called(calls[i]))
  }

  /** One category run: its counts are added, its failures appended, its calls traced. */
  function AddCategory(acc: Totals, c: Category): Totals {
    var result := ExecutePlotList(c.tasks, c.name);
    Totals(acc.successful + result.successful, acc.failed + result.failed,
           acc.failedPlots + result.failedPlots, acc.trace + AsEvents(result.calls))
  }

  /** The totals after the categories `cats` have been added to `acc`. */
  ghost predicate AddsCategories(acc: Totals, cats: seq<Category>, r: Totals) {
    && r.successful == acc.successful + SumSuccessful(cats)
    && r.failed == acc.failed + SumFailed(cats)
    && r.failedPlots == acc.failedPlots + ConcatFailures(cats)
    && r.trace == acc.trace + CategoryCalls(cats)
  }

  lemma AppendAssoc<T>(a: seq<T>, b: seq<T>, c: seq<T>)
    ensures a + b + c == a + (b + c)
  {
  }

  lemma RunCategoriesStep(acc: Totals, cats: seq<Category>, r: Totals)
    requires |cats| > 0
    requires AddsCategories(AddCategory(acc, cats[0]), cats[1..], r)
    ensures AddsCategories(acc, cats, r)
  {
    var result := ExecutePlotList(cats[0].tasks, cats[0].name);
    AppendAssoc(acc.failedPlots, result.failedPlots, ConcatFailures(cats[1..]));
    AppendAssoc(acc.trace, AsEvents(result.calls), CategoryCalls(cats[1..]));
  }

  /**
   The inner loop of `main`: each category's counts are added to the
   totals and its failure list is appended, in order.
   */
  function RunCategories(acc: Totals, cats: seq<Category>): (r: Totals)
    ensures r.successful == acc.successful + SumSuccessful(cats)
    ensures r.failed == acc.failed + SumFailed(cats)
    ensures r.failedPlots == acc.failedPlots + ConcatFailures(cats)
    ensures r.trace == acc.trace + CategoryCalls(cats)
    decreases |cats|
  {
    if |cats| == 0 then acc
    else
      var r := RunCategories(AddCategory(acc, cats[0]), cats[1..]);
      RunCategoriesStep(acc, cats, r);
      r
  }

  function FolderSuccessful(folders: seq<Folder>): nat {
    if |folders| == 0 then 0 else SumSuccessful(folders[0].categories) + FolderSuccessful(folders[1..])
  }

  function FolderFailed(folders: seq<Folder>): nat {
    if |folders| == 0 then 0 else SumFailed(folders[0].categories) + FolderFailed(folders[1..])
  }

  /** Every category's failure list, folder by folder and category by category. */
  function PlanFailures(folders: seq<Folder>): seq<FailedPlot> {
    if |folders| == 0 then [] else ConcatFailures(folders[0].categories) + PlanFailures(folders[1..])
  }

  /** How many tasks the whole plan declares. */
  function TotalTasks(folders: seq<Folder>): nat {
    if |folders| == 0 then 0 else NumTasks(folders[0].categories) + TotalTasks(folders[1..])
  }

  /** The trace of the folder loop: each folder is set, then its categories' tasks are called. */
  function PlanTrace(folders: seq<Folder>): seq<Event> {
    if |folders| == 0 then []
    else [SetFolder(folders[0].path)] + CategoryCalls(folders[0].categories) + PlanTrace(folders[1..])
  }

  /** The totals after the folders `folders` have been run on top of `acc`. */
  ghost predicate AddsFolders(acc: Totals, folders: seq<Folder>, r: Totals) {
    && r.successful == acc.successful + FolderSuccessful(folders)
    && r.failed == acc.failed + FolderFailed(folders)
    && r.failedPlots == acc.failedPlots + PlanFailures(folders)
    && r.trace == acc.trace + PlanTrace(folders)
  }

  lemma RunFoldersStep(acc: Totals, folders: seq<Folder>, afterFolder: Totals, r: Totals)
    requires |folders| > 0
    requires AddsCategories(acc.(trace := acc.trace + [SetFolder(folders[0].path)]),
                            folders[0].categories, afterFolder)
    requires AddsFolders(afterFolder, folders[1..], r)
    ensures AddsFolders(acc, folders, r)
  {
    var cats := folders[0].categories;
    AppendAssoc(acc.failedPlots, ConcatFailures(cats), PlanFailures(folders[1..]));
    AppendAssoc(acc.trace, [SetFolder(folders[0].path)], CategoryCalls(cats));
    AppendAssoc(acc.trace + [SetFolder(folders[0].path)], CategoryCalls(cats), PlanTrace(folders[1..]));
    AppendAssoc(acc.trace, [SetFolder(folders[0].path)] + CategoryCalls(cats), PlanTrace(folders[1..]));
  }

  /** The outer loop of `main`: set the folder, then run that folder's categories. */
  function RunFolders(acc: Totals, folders: seq<Folder>): (r: Totals)
    ensures r.successful == acc.successful + FolderSuccessful(folders)
    ensures r.failed == acc.failed + FolderFailed(folders)
    ensures r.failedPlots == acc.failedPlots + PlanFailures(folders)
    ensures r.trace == acc.trace + PlanTrace(folders)
    decreases |folders|
  {
    if |folders| == 0 then acc
    else
      var afterSet := acc.(trace := acc.trace + [SetFolder(folders[0].path)]);
      var afterFolder := RunCategories(afterSet, folders[0].categories);
      var r := RunFolders(afterFolder, folders[1..]);
      RunFoldersStep(acc, folders, afterFolder, r);
      r
  }

  /** Every category task either succeeds or fails, and each failure is listed once. */
  lemma {:induction false} CategoryCounts(cats: seq<Category>)
    ensures SumSuccessful(cats) + SumFailed(cats) == NumTasks(cats)
    ensures |ConcatFailures(cats)| == SumFailed(cats)
  {
    if |cats| > 0 {
      CategoryCounts(cats[1..]);
    }
  }

  /** Every planned task either succeeds or fails, and each failure is listed once. */
  lemma {:induction false} PlanCounts(folders: seq<Folder>)
    ensures FolderSuccessful(folders) + FolderFailed(folders) == TotalTasks(folders)
    ensures |PlanFailures(folders)| == FolderFailed(folders)
  {
    if |folders| > 0 {
      CategoryCounts(folders[0].categories);
      PlanCounts(folders[1..]);
    }
  }

  // ---------------------------------------------------------------------
  // The final summary
  // ---------------------------------------------------------------------

  /**
   `100 * total_successful / (total_successful + total_failed)`. The source
   divides without a guard, so the caller must have attempted something.
   */
  function SuccessRate(successful: nat, failed: nat): (rate: real)
    requires successful + failed > 0
    ensures 0.0 <= rate <= 100.0
    ensures rate == 100.0 <==> failed == 0
    ensures rate == 0.0 <==> successful == 0
  {
    100.0 * (successful as real) / ((successful + failed) as real)
  }

  /** The branch on `all_failed_plots`: the success line when it is empty, the details otherwise. */
  function FinalReport(failedPlots: seq<FailedPlot>): (r: Report)
    ensures r.AllSucceeded? <==> |failedPlots| == 0
    ensures r.FailuresListed? ==> r.failedPlots == failedPlots
  {
    if |failedPlots| > 0 then FailuresListed(failedPlots) else AllSucceeded
  }

  /**
   `main`: set the default folder, load the data (returning at once if that
   raises), run every folder's categories and summarise.
   */
  function Main(load: LoadResult, plan: seq<Folder>): (m: MainResult)
    requires load.Loaded? ==> TotalTasks(plan) > 0
    ensures m.Aborted? <==> load.LoadRaised?
    ensures m.Aborted? ==> m.trace == [SetFolder(PlotsFolder)]
    ensures m.Completed? ==> m.totals.trace == [SetFolder(PlotsFolder)] + PlanTrace(plan)
    ensures m.Completed? ==> m.totals.successful + m.totals.failed == TotalTasks(plan)
    ensures m.Completed? ==> m.totals.successful == FolderSuccessful(plan)
    ensures m.Completed? ==> m.totals.failed == FolderFailed(plan)
    ensures m.Completed? ==> m.totals.failedPlots == PlanFailures(plan)
    ensures m.Completed? ==> (m.report.AllSucceeded? <==> m.totals.failed == 0)
    ensures m.Completed? ==> (m.successRate == 100.0 <==> m.totals.failed == 0)
  {
    var start := [SetFolder(PlotsFolder)];
    match load
    case LoadRaised(_, _) => Aborted(start)
    case Loaded =>
      var totals := RunFolders(Totals(0, 0, [], start), plan);
      PlanCounts(plan);
      Completed(totals, SuccessRate(totals.successful, totals.failed), FinalReport(totals.failedPlots))
  }

  // ---------------------------------------------------------------------
  // The process-wide plots folder
  // ---------------------------------------------------------------------

  /**
   Replays a trace the way `set_plots_folder` changes the global folder:
   every call is paired with the folder active when it is made.
   */
  function Observe(trace: seq<Event>, active: string): seq<(string, Call)>
    decreases |trace|
  {
    if |trace| == 0 then []
    else match trace[0]
      case SetFolder(path) => Observe(trace[1..], path)
      case Called(call) => [(active, call)] + Observe(trace[1..], active)
  }

  /** The global folder after a trace has been replayed. */
  function ActiveAfter(trace: seq<Event>, active: string): string
    decreases |trace|
  {
    if |trace| == 0 then active
    else match trace[0]
      case SetFolder(path) => ActiveAfter(trace[1..], path)
      case Called(_) => ActiveAfter(trace[1..], active)
  }

  lemma {:induction false} ObserveAppend(a: seq<Event>, b: seq<Event>, active: string)
    ensures Observe(a + b, active) == Observe(a, active) + Observe(b, ActiveAfter(a, active))
    ensures ActiveAfter(a + b, active) == ActiveAfter(b, ActiveAfter(a, active))
    decreases |a|
  {
    if |a| == 0 {
      assert a + b == b;
    } else {
      assert (a + b)[0] == a[0];
      assert (a + b)[1..] == a[1..] + b;
      match a[0]
      case SetFolder(path) => ObserveAppend(a[1..], b, path);
      case Called(call) => ObserveAppend(a[1..], b, active);
    }
  }

  /** Every call paired with one folder. */
  function InFolder(folder: string, calls: seq<Call>): seq<(string, Call)> {
    seq(|calls|, i requires 0 <= i < |calls| => (folder, calls[i]))
  }

  /** A stretch of plotting calls neither reads a different folder nor changes it. */
  lemma {:induction false} ObserveCalls(calls: seq<Call>, active: string)
    ensures Observe(AsEvents(calls), active) == InFolder(active, calls)
    ensures ActiveAfter(AsEvents(calls), active) == active
    decreases |calls|
  {
    if |calls| > 0 {
      assert AsEvents(calls)[1..] == AsEvents(calls[1..]);
      ObserveCalls(calls[1..], active);
      assert InFolder(active, calls) == [(active, calls[0])] + InFolder(active, calls[1..]);
    }
  }

  /** The calls of the categories' tasks, one per task, in declared order. */
  function PlannedCalls(cats: seq<Category>): seq<Call> {
    if |cats| == 0 then [] else TaskCalls(cats[0].tasks) + PlannedCalls(cats[1..])
  }

  lemma {:induction false} InFolderAppend(folder: string, a: seq<Call>, b: seq<Call>)
    ensures InFolder(folder, a + b) == InFolder(folder, a) + InFolder(folder, b)
  {
  }

  lemma {:induction false} ObserveCategoryCalls(cats: seq<Category>, active: string)
    ensures Observe(CategoryCalls(cats), active) == InFolder(active, PlannedCalls(cats))
    ensures ActiveAfter(CategoryCalls(cats), active) == active
    decreases |cats|
  {
    if |cats| > 0 {
      var first := AsEvents(TaskCalls(cats[0].tasks));
      ObserveAppend(first, CategoryCalls(cats[1..]), active);
      ObserveCalls(TaskCalls(cats[0].tasks), active);
      ObserveCategoryCalls(cats[1..], active);
      InFolderAppend(active, TaskCalls(cats[0].tasks), PlannedCalls(cats[1..]));
    }
  }

  /**
   The intended schedule: folder by folder, category by category, every
   task called once in declared order while its own folder is active.
   */
  function Schedule(plan: seq<Folder>): seq<(string, Call)> {
    if |plan| == 0 then []
    else InFolder(plan[0].path, PlannedCalls(plan[0].categories)) + Schedule(plan[1..])
  }

  lemma {:induction false} ObservePlanTrace(plan: seq<Folder>, active: string)
    ensures Observe(PlanTrace(plan), active) == Schedule(plan)
    decreases |plan|
  {
    if |plan| > 0 {
      var f := plan[0];
      var setFolder := [SetFolder(f.path)];
      var calls := CategoryCalls(f.categories);
      assert PlanTrace(plan) == setFolder + (calls + PlanTrace(plan[1..]));
      ObserveAppend(setFolder, calls + PlanTrace(plan[1..]), active);
      ObserveAppend(calls, PlanTrace(plan[1..]), f.path);
      ObserveCategoryCalls(f.categories, f.path);
      ObservePlanTrace(plan[1..], f.path);
    }
  }

  /**
   After a successful load, `main` calls every task of the plan exactly
   once, in folder-then-category-then-task order, and each call sees its own
   folder as the active plots folder.
   */
  lemma MainFollowsSchedule(plan: seq<Folder>)
    requires TotalTasks(plan) > 0
    ensures Main(Loaded, plan).Completed?
    ensures Observe(Main(Loaded, plan).totals.trace, PlotsFolder) == Schedule(plan)
  {
    var trace := Main(Loaded, plan).totals.trace;
    ObserveAppend([SetFolder(PlotsFolder)], PlanTrace(plan), PlotsFolder);
    ObservePlanTrace(plan, PlotsFolder);
  }

  // ---------------------------------------------------------------------
  // The plan `main` declares
  // ---------------------------------------------------------------------

  /** The destinations of `plot_categories`, each with its category names and plot-list lengths. */
  const Layout: seq<(string, seq<(string, nat)>)> := [
    (PlotsFolder + "gender/", [("Gender Static", 3), ("Gender Dynamic", 5)]),
    (PlotsFolder + "ethnicity/", [("Race Dynamic", 8)]),
    (PlotsFolder + "appendix/", [("Appendix General", 4)]),
    (PlotsFolder + "appendix/gender/", [("Appendix Gender Static", 4), ("Appendix Gender Dynamic", 2)]),
    (PlotsFolder + "appendix/ethnicity/", [("Appendix Race Asian Static", 3), ("Appendix Race Hispanic Static", 2)])
  ]

  /** A category list has the given names and lengths. */
  ghost predicate CategoriesFollow(cats: seq<Category>, shape: seq<(string, nat)>) {
    && |cats| == |shape|
    && forall j :: 0 <= j < |cats| ==> cats[j].name == shape[j].0 && |cats[j].tasks| == shape[j].1
  }

  /** A plan has the folders, category names and list lengths of the layout. */
  ghost predicate Follows(plan: seq<Folder>, layout: seq<(string, seq<(string, nat)>)>) {
    && |plan| == |layout|
    && forall i :: 0 <= i < |plan| ==> plan[i].path == layout[i].0 && CategoriesFollow(plan[i].categories, layout[i].1)
  }

  function ShapeTasks(shape: seq<(string, nat)>): nat {
    if |shape| == 0 then 0 else shape[0].1 + ShapeTasks(shape[1..])
  }

  function LayoutTasks(layout: seq<(string, seq<(string, nat)>)>): nat {
    if |layout| == 0 then 0 else ShapeTasks(layout[0].1) + LayoutTasks(layout[1..])
  }

  lemma {:induction false} NumTasksFollows(cats: seq<Category>, shape: seq<(string, nat)>)
    requires CategoriesFollow(cats, shape)
    ensures NumTasks(cats) == ShapeTasks(shape)
    decreases |cats|
  {
    if |cats| > 0 {
      NumTasksFollows(cats[1..], shape[1..]);
    }
  }

  lemma {:induction false} TotalTasksFollows(plan: seq<Folder>, layout: seq<(string, seq<(string, nat)>)>)
    requires Follows(plan, layout)
    ensures TotalTasks(plan) == LayoutTasks(layout)
    decreases |plan|
  {
    if |plan| > 0 {
      NumTasksFollows(plan[0].categories, layout[0].1);
      TotalTasksFollows(plan[1..], layout[1..]);
    }
  }

  function ShapeNames(shape: seq<(string, nat)>): seq<string> {
    if |shape| == 0 then [] else [shape[0].0] + ShapeNames(shape[1..])
  }

  /** Category names, in the order `main` runs them. */
  function LayoutNames(layout: seq<(string, seq<(string, nat)>)>): seq<string> {
    if |layout| == 0 then [] else ShapeNames(layout[0].1) + LayoutNames(layout[1..])
  }

  /** The sizes and names of a one- or two-category folder of the layout. */
  lemma ShapeOfTwo(shape: seq<(string, nat)>)
    requires 1 <= |shape| <= 2
    ensures |shape| == 1 ==> ShapeTasks(shape) == shape[0].1 && ShapeNames(shape) == [shape[0].0]
    ensures |shape| == 2 ==> ShapeTasks(shape) == shape[0].1 + shape[1].1 && ShapeNames(shape) == [shape[0].0, shape[1].0]
  {
    if |shape| == 2 {
      assert shape[1..][1..] == [];
    } else {
      assert shape[1..] == [];
    }
  }

  /** The folder loop visits the layout folder by folder. */
  lemma LayoutUnfolds(k: nat)
    requires k < |Layout|
    ensures LayoutTasks(Layout[k..]) == ShapeTasks(Layout[k].1) + LayoutTasks(Layout[k + 1..])
    ensures LayoutNames(Layout[k..]) == ShapeNames(Layout[k].1) + LayoutNames(Layout[k + 1..])
  {
    assert Layout[k..][1..] == Layout[k + 1..];
  }

  lemma LayoutTaskCount()
    ensures LayoutTasks(Layout) == 31
  {
    ShapeOfTwo(Layout[0].1);
    ShapeOfTwo(Layout[1].1);
    ShapeOfTwo(Layout[2].1);
    ShapeOfTwo(Layout[3].1);
    ShapeOfTwo(Layout[4].1);
    assert LayoutTasks(Layout[5..]) == 0;
    LayoutUnfolds(4);
    assert LayoutTasks(Layout[4..]) == 5;
    LayoutUnfolds(3);
    assert LayoutTasks(Layout[3..]) == 11;
    LayoutUnfolds(2);
    assert LayoutTasks(Layout[2..]) == 15;
    LayoutUnfolds(1);
    assert LayoutTasks(Layout[1..]) == 23;
    LayoutUnfolds(0);
    assert Layout[0..] == Layout;
  }

  lemma LayoutNameList()
    ensures LayoutNames(Layout) == ["Gender Static", "Gender Dynamic", "Race Dynamic", "Appendix General",
                                    "Appendix Gender Static", "Appendix Gender Dynamic",
                                    "Appendix Race Asian Static", "Appendix Race Hispanic Static"]
  {
    ShapeOfTwo(Layout[0].1);
    ShapeOfTwo(Layout[1].1);
    ShapeOfTwo(Layout[2].1);
    ShapeOfTwo(Layout[3].1);
    ShapeOfTwo(Layout[4].1);
    assert LayoutNames(Layout[5..]) == [];
    LayoutUnfolds(4);
    LayoutUnfolds(3);
    LayoutUnfolds(2);
    LayoutUnfolds(1);
    LayoutUnfolds(0);
    assert Layout[0..] == Layout;
  }

  /**
   Any plan with the shape `main` declares has 31 tasks, so the success
   rate's unguarded division is safe for the program as written.
   */
  lemma DeclaredPlanIsNonEmpty(plan: seq<Folder>)
    requires Follows(plan, Layout)
    ensures TotalTasks(plan) == 31
    ensures Main(Loaded, plan).Completed?
  {
    TotalTasksFollows(plan, Layout);
    LayoutTaskCount();
  }

  /** Every category of the declared plan has its own name, so reports name categories unambiguously. */
  lemma DeclaredCategoryNamesDistinct()
    ensures forall i, j :: 0 <= i < j < |LayoutNames(Layout)| ==> LayoutNames(Layout)[i] != LayoutNames(Layout)[j]
  {
    LayoutNameList();
  }
}
