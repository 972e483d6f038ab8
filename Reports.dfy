/** Report: the six tables a benchmark run fills (problems, compiled
    problems, planners, results, summary and best), the one-shot start and
    end times, and the aggregation that fills the summary and best tables
    once all tests are done. */
module Reports {
  import opened Wrappers
  import opened Values
  import opened Tables
  import Statistics
  import Sequences

  // ---------------------------------------------------------------------
  // Column labels and table schemas

  const ProblemsName := "Name"
  const ProblemsCharacters := "Characters"
  const ProblemsEntities := "Entities"
  const ProblemsFluents := "Fluents"
  const ProblemsActions := "Actions"
  const ProblemsTriggers := "Triggers"
  const ProblemsGoal := "Goal"
  const ProblemsAtl := "ATL"
  const ProblemsCtl := "CTL"
  const ProblemsEl := "EL"
  const PlannersName := "Name"
  const PlannersSearch := "Search Method"
  const PlannersCost := "Cost"
  const PlannersHeuristic := "Heuristic"
  const ResultsProblem := "Problem"
  const ResultsPlanner := "Planner"
  const ResultsRun := "Run"
  const ResultsSuccess := "Success?"
  const ResultsPlanLength := "Plan Length"
  const ResultsVisited := "Nodes Visited"
  const ResultsGenerated := "Nodes Generated"
  const ResultsTime := "Time (ms)"
  const SummaryProblem := "Problem"
  const SummaryPlanner := "Planner"
  const SummaryMinVisited := "Min Nodes Visited"
  const SummaryMaxVisited := "Max Nodes Visited"
  const SummaryAvgVisited := "Avg. Nodes Visited"
  const SummaryStdVisited := "Nodes Visited Std."
  const SummaryMinGenerated := "Min Nodes Generated"
  const SummaryMaxGenerated := "Max Nodes Generated"
  const SummaryAvgGenerated := "Avg. Nodes Generated"
  const SummaryStdGenerated := "Nodes Generated Std."
  const SummaryMinTime := "Min Time (ms)"
  const SummaryMaxTime := "Max Time (ms)"
  const SummaryAvgTime := "Avg. Time (ms)"
  const SummaryStdTime := "Time Std. (ms)"
  const BestProblem := "Problem"
  const BestPlannerVisited := "Best Planner (Visited)"
  const BestAvgVisited := "Avg. Nodes Visited"
  const BestPlannerGenerated := "Best Planner (Generated)"
  const BestAvgGenerated := "Avg. Nodes Generated"
  const BestPlannerTime := "Best Planner (Time)"
  const BestAvgTime := "Avg. Time (ms)"

  const ProblemsSchema: seq<Column> := [
    Column(ProblemsName, StringType), Column(ProblemsCharacters, IntegerType),
    Column(ProblemsEntities, IntegerType), Column(ProblemsFluents, IntegerType),
    Column(ProblemsActions, IntegerType), Column(ProblemsTriggers, IntegerType),
    Column(ProblemsGoal, DoubleType), Column(ProblemsAtl, IntegerType),
    Column(ProblemsCtl, IntegerType), Column(ProblemsEl, IntegerType)]

  const PlannersSchema: seq<Column> := [
    Column(PlannersName, StringType), Column(PlannersSearch, StringType),
    Column(PlannersCost, StringType), Column(PlannersHeuristic, StringType)]

  const ResultsSchema: seq<Column> := [
    Column(ResultsProblem, StringType), Column(ResultsPlanner, StringType),
    Column(ResultsRun, IntegerType), Column(ResultsSuccess, BooleanType),
    Column(ResultsPlanLength, IntegerType), Column(ResultsVisited, LongType),
    Column(ResultsGenerated, LongType), Column(ResultsTime, LongType)]

  const SummarySchema: seq<Column> := [
    Column(SummaryProblem, StringType), Column(SummaryPlanner, StringType),
    Column(SummaryMinVisited, LongType), Column(SummaryMaxVisited, LongType),
    Column(SummaryAvgVisited, DoubleType), Column(SummaryStdVisited, DoubleType),
    Column(SummaryMinGenerated, LongType), Column(SummaryMaxGenerated, LongType),
    Column(SummaryAvgGenerated, DoubleType), Column(SummaryStdGenerated, DoubleType),
    Column(SummaryMinTime, LongType), Column(SummaryMaxTime, LongType),
    Column(SummaryAvgTime, DoubleType), Column(SummaryStdTime, DoubleType)]

  /** The number of columns of the results table. */
  const ResultsWidth := 8

  const BestSchema: seq<Column> := [
    Column(BestProblem, StringType),
    Column(BestPlannerVisited, StringType), Column(BestAvgVisited, DoubleType),
    Column(BestPlannerGenerated, StringType), Column(BestAvgGenerated, DoubleType),
    Column(BestPlannerTime, StringType), Column(BestAvgTime, DoubleType)]

  /** No two columns share a label, so every label finds its own column. */
  ghost predicate DistinctNames(columns: seq<Column>) {
    forall i, j :: 0 <= i < j < |columns| ==> columns[i].name != columns[j].name
  }

  lemma ProblemsNamesDistinct()
    ensures DistinctNames(ProblemsSchema)
  {
  }

  lemma PlannersNamesDistinct()
    ensures DistinctNames(PlannersSchema)
  {
  }

  lemma ResultsNamesDistinct()
    ensures DistinctNames(ResultsSchema)
  {
  }

  lemma SummaryNamesDistinct()
    ensures DistinctNames(SummarySchema)
  {
  }

  lemma BestNamesDistinct()
    ensures DistinctNames(BestSchema)
  {
  }

  // ---------------------------------------------------------------------
  // The objects a report is told about

  /** A planning problem (or its compiled form): its identity, its name and
      the sizes of its parts. */
  datatype Problem = Problem(id: nat, name: string, characters: nat, entities: nat, fluents: nat, actions: nat, triggers: nat)

  /** A benchmark: its name, the problem and compiled problem read from its
      file, and its goal and search limits. */
  datatype Benchmark = Benchmark(name: string, problem: Problem, compiled: Problem, goal: real, atl: int, ctl: int, el: int)

  /** A planner: its identity, its name and the text of its search method,
      cost and heuristic. */
  datatype Planner = Planner(id: nat, name: string, search: string, cost: string, heuristic: string)

  /** The result of one search: its identity, the length of the solution
      found (None when the search failed) and the search counts. */
  datatype Outcome = Outcome(id: nat, solution: Option<nat>, visited: int, generated: int, time: int)
  {
    predicate Success() {
      solution.Some?
    }
  }

  /** The row labels of the report's tables. */
  datatype Label =
    | ProblemLabel(problem: Problem)
    | PlannerLabel(planner: Planner)
    | ResultLabel(outcome: Outcome)
    | PairLabel(pairProblem: Problem, pairPlanner: Planner)

  /** The statistics collect can read from a result. */
  datatype Metric = Visited | Generated | Time

  /** IllegalStateException. */
  datatype Exception = IllegalState

  function Measure(o: Outcome, m: Metric): int {
    match m
    case Visited => o.visited
    case Generated => o.generated
    case Time => o.time
  }

  // ---------------------------------------------------------------------
  // min, max, avg and std over collected numbers

  /** The first of the smallest values: what min finds. */
  function Least(xs: seq<int>): (m: Option<int>)
    ensures m.None? <==> xs == []
    ensures m.Some? ==> exists i :: 0 <= i < |xs| && xs[i] == m.value && forall j :: 0 <= j < i ==> xs[j] > m.value
    ensures m.Some? ==> forall j :: 0 <= j < |xs| ==> m.value <= xs[j]
  {
    if xs == [] then None
    else
      var n := |xs| - 1;
      var m := Least(xs[..n]);
      if m.None? || xs[n] < m.value then Some(xs[n]) else m
  }

  /** The first of the largest values: what max finds. */
  function Greatest(xs: seq<int>): (m: Option<int>)
    ensures m.None? <==> xs == []
    ensures m.Some? ==> exists i :: 0 <= i < |xs| && xs[i] == m.value && forall j :: 0 <= j < i ==> xs[j] < m.value
    ensures m.Some? ==> forall j :: 0 <= j < |xs| ==> xs[j] <= m.value
  {
    if xs == [] then None
    else
      var n := |xs| - 1;
      var m := Greatest(xs[..n]);
      if m.None? || xs[n] > m.value then Some(xs[n]) else m
  }

  /** Number.doubleValue of each value. */
  function Doubles(xs: seq<int>): seq<real> {
    seq(|xs|, i requires 0 <= i < |xs| => xs[i] as real)
  }

  /** The arithmetic mean, or None for no values. */
  function Average(xs: seq<int>): (a: Option<real>)
    ensures a.None? <==> xs == []
  {
    if xs == [] then None else Some(Statistics.SumReals(Doubles(xs)) / |xs| as real)
  }

  /** The population standard deviation, or None for no values. */
  function Deviation(xs: seq<int>, sqrt: real -> real): (d: Option<real>)
    ensures d.None? <==> Average(xs).None?
  {
    if xs == [] then None
    else Some(sqrt(Statistics.SquaredDeviations(Doubles(xs), Average(xs).value) / |xs| as real))
  }

  lemma DoublesSnoc(xs: seq<int>, i: nat)
    requires i < |xs|
    ensures Doubles(xs[..i + 1]) == Doubles(xs[..i]) + [xs[i] as real]
  {
  }

  /** min: keeps a value only when it compares strictly smaller, so the
      first of equal values is the one returned. */
  method Min(values: seq<int>) returns (min: Option<int>)
    ensures min == Least(values)
  {
    min := None;
    for i := 0 to |values|
      invariant min == Least(values[..i])
    {
      assert values[..i + 1][..i] == values[..i];
      if min.None? || Compare(values[i], min.value) < 0 {
        min := Some(values[i]);
      }
    }
    assert values[..|values|] == values;
  }

  /** max: keeps a value only when it compares strictly larger. */
  method Max(values: seq<int>) returns (max: Option<int>)
    ensures max == Greatest(values)
  {
    max := None;
    for i := 0 to |values|
      invariant max == Greatest(values[..i])
    {
      assert values[..i + 1][..i] == values[..i];
      if max.None? || Compare(values[i], max.value) > 0 {
        max := Some(values[i]);
      }
    }
    assert values[..|values|] == values;
  }

  /** compare: BigDecimal comparison of the two numbers' decimal texts. */
  function Compare(n1: int, n2: int): (r: int)
    ensures r < 0 <==> n1 < n2
    ensures r > 0 <==> n1 > n2
  {
    Statistics.Compare(Statistics.Integral(n1), Statistics.Integral(n2))
  }

  /** avg: null for no values, otherwise the total over the count. */
  method Avg(values: seq<int>) returns (avg: Option<real>)
    ensures avg == Average(values)
  {
    if |values| == 0 {
      return None;
    }
    var total := 0.0;
    var count := 0.0;
    for i := 0 to |values|
      invariant total == Statistics.SumReals(Doubles(values[..i]))
      invariant count == i as real
    {
      DoublesSnoc(values, i);
      Statistics.SumRealsSnoc(Doubles(values[..i]), [values[i] as real]);
      total := total + values[i] as real;
      count := count + 1.0;
    }
    assert values[..|values|] == values;
    return Some(total / count);
  }

  /** std: null for no values, otherwise the square root of the mean
      squared difference from avg (Math.sqrt is the parameter sqrt). */
  method Std(values: seq<int>, sqrt: real -> real) returns (std: Option<real>)
    ensures std == Deviation(values, sqrt)
  {
    if |values| == 0 {
      return None;
    }
    var mean := Avg(values);
    var count := 0.0;
    var sumOfSquares := 0.0;
    for i := 0 to |values|
      invariant sumOfSquares == Statistics.SquaredDeviations(Doubles(values[..i]), mean.value)
      invariant count == i as real
    {
      DoublesSnoc(values, i);
      Statistics.SquaredDeviationsSnoc(Doubles(values[..i]), [values[i] as real], mean.value);
      count := count + 1.0;
      var difference := values[i] as real - mean.value;
      sumOfSquares := sumOfSquares + difference * difference;
    }
    assert values[..|values|] == values;
    return Some(sqrt(sumOfSquares / count));
  }

  /** n copies of x added up. */
  function Times(n: nat, x: real): real {
    if n == 0 then 0.0 else Times(n - 1, x) + x
  }

  lemma {:induction false} TimesIsProduct(n: nat, x: real)
    ensures Times(n, x) == n as real * x
  {
    if n > 0 {
      TimesIsProduct(n - 1, x);
    }
  }

  lemma {:induction false} SumBounds(xs: seq<int>, lo: int, hi: int)
    requires forall i :: 0 <= i < |xs| ==> lo <= xs[i] <= hi
    ensures Times(|xs|, lo as real) <= Statistics.SumReals(Doubles(xs)) <= Times(|xs|, hi as real)
  {
    if xs != [] {
      var n := |xs| - 1;
      SumBounds(xs[..n], lo, hi);
      SumDoublesLast(xs);
    } else {
      assert Doubles(xs) == [];
    }
  }

  lemma SumDoublesLast(xs: seq<int>)
    requires xs != []
    ensures Statistics.SumReals(Doubles(xs)) == Statistics.SumReals(Doubles(xs[..|xs| - 1])) + xs[|xs| - 1] as real
  {
    assert Doubles(xs)[..|xs| - 1] == Doubles(xs[..|xs| - 1]);
  }

  /** The average of the collected values lies between their min and max. */
  lemma AverageBetween(xs: seq<int>)
    requires xs != []
    ensures Least(xs).value as real <= Average(xs).value <= Greatest(xs).value as real
  {
    MeanBetween(xs, Least(xs).value, Greatest(xs).value);
  }

  lemma MeanBetween(xs: seq<int>, lo: int, hi: int)
    requires xs != [] && forall i :: 0 <= i < |xs| ==> lo <= xs[i] <= hi
    ensures lo as real <= Statistics.SumReals(Doubles(xs)) / |xs| as real <= hi as real
  {
    SumBounds(xs, lo, hi);
    TimesIsProduct(|xs|, lo as real);
    TimesIsProduct(|xs|, hi as real);
    DivBetween(Statistics.SumReals(Doubles(xs)), |xs| as real, lo as real, hi as real);
  }

  lemma DivBetween(s: real, n: real, lo: real, hi: real)
    requires n > 0.0 && n * lo <= s <= n * hi
    ensures lo <= s / n <= hi
  {
    var q := s / n;
    assert q * n == s;
    assert (q - lo) * n >= 0.0;
    assert (hi - q) * n >= 0.0;
  }

  /** The deviation of equal values is sqrt(0). */
  lemma {:induction false} EqualValuesNoDeviation(xs: seq<int>, v: int, sqrt: real -> real)
    requires xs != [] && forall i :: 0 <= i < |xs| ==> xs[i] == v
    ensures Average(xs) == Some(v as real)
    ensures Deviation(xs, sqrt) == Some(sqrt(0.0))
  {
    MeanBetween(xs, v, v);
    SquaresOfEqual(xs, v);
  }

  /** Two successful runs that visited 100 and 200 nodes: min 100, max 200,
      average 150 and deviation sqrt(2500), i.e. 50. */
  lemma TwoRunsSummary(sqrt: real -> real)
    ensures Least([100, 200]) == Some(100) && Greatest([100, 200]) == Some(200)
    ensures Average([100, 200]) == Some(150.0)
    ensures Deviation([100, 200], sqrt) == Some(sqrt(2500.0))
  {
    var xs := [100, 200];
    assert xs[..1] == [100];
    assert Doubles(xs) == [100.0, 200.0];
    assert [100.0, 200.0][..1] == [100.0];
    assert Statistics.SumReals([100.0]) == 100.0 by {
      assert [100.0][..0] == [];
    }
    assert Statistics.SquaredDeviations([100.0], 150.0) == 2500.0 by {
      assert [100.0][..0] == [];
    }
  }

  lemma {:induction false} SquaresOfEqual(xs: seq<int>, v: int)
    requires forall i :: 0 <= i < |xs| ==> xs[i] == v
    ensures Statistics.SquaredDeviations(Doubles(xs), v as real) == 0.0
  {
    if xs != [] {
      var n := |xs| - 1;
      assert Doubles(xs)[..n] == Doubles(xs[..n]);
      SquaresOfEqual(xs[..n], v);
    }
  }

  // ---------------------------------------------------------------------
  // Choosing the best planner

  /** One step of fillSummary's best-so-far update: a planner replaces the
      best when it has an average and there is no best yet or its average
      is strictly smaller. */
  function Improve(best: Option<(nat, real)>, avg: Option<real>, j: nat): Option<(nat, real)> {
    if avg.Some? && (best.None? || avg.value < best.value.1) then Some((j, avg.value)) else best
  }

  /** The best planner (by index) and its average after all the planners'
      averages have been seen in order: the first planner with the
      strictly smallest average, or None when no planner has one. */
  function Best(avgs: seq<Option<real>>): (b: Option<(nat, real)>)
    ensures b.None? <==> forall i :: 0 <= i < |avgs| ==> avgs[i].None?
    ensures b.Some? ==> b.value.0 < |avgs| && avgs[b.value.0] == Some(b.value.1)
    ensures b.Some? ==> forall i :: 0 <= i < |avgs| && avgs[i].Some? ==> b.value.1 <= avgs[i].value
    ensures b.Some? ==> forall i :: 0 <= i < b.value.0 && avgs[i].Some? ==> b.value.1 < avgs[i].value
  {
    if avgs == [] then None
    else
      var n := |avgs| - 1;
      Improve(Best(avgs[..n]), avgs[n], n)
  }

  lemma BestSnoc(avgs: seq<Option<real>>, j: nat)
    requires j < |avgs|
    ensures Best(avgs[..j + 1]) == Improve(Best(avgs[..j]), avgs[j], j)
  {
    assert avgs[..j + 1][..j] == avgs[..j];
  }

  // ---------------------------------------------------------------------
  // The rows the report writes

  /** The cells addProblem writes for a problem (or compiled problem) of a
      benchmark, in column order. */
  function ProblemValues(b: Benchmark, p: Problem): seq<Value> {
    [Str(p.name), Int(p.characters), Int(p.entities), Int(p.fluents), Int(p.actions), Int(p.triggers),
     Dbl(b.goal), Int(b.atl), Int(b.ctl), Int(b.el)]
  }

  /** The cells addPlanner writes. */
  function PlannerValues(l: Planner): seq<Value> {
    [Str(l.name), Str(l.search), Str(l.cost), Str(l.heuristic)]
  }

  /** The cells addResult writes: the plan length only for a successful
      search, so a failed search leaves that cell null. */
  function ResultValues(b: Benchmark, l: Planner, run: int, o: Outcome): seq<Value> {
    [Str(b.name), Str(l.name), Int(run), Bool(o.Success()),
     if o.Success() then Int(o.solution.value) else Null,
     Lng(o.visited), Lng(o.generated), Lng(o.time)]
  }

  /** The labels of a table's rows, in order. */
  function Names(rows: seq<Row<Label>>): seq<Label> {
    seq(|rows|, i requires 0 <= i < |rows| => rows[i].name)
  }

  ghost predicate DistinctLabels(rows: seq<Row<Label>>) {
    forall i, j :: 0 <= i < j < |rows| ==> rows[i].name != rows[j].name
  }

  /** Whether collect(problem, planner, ·) takes a results row: its problem
      and planner cells hold the two names and its result succeeded. */
  predicate Taken(row: Row<Label>, vs: seq<Value>, problem: string, planner: string)
    requires |vs| == ResultsWidth
  {
    vs[0] == Str(problem) && vs[1] == Str(planner) && row.name.ResultLabel? && row.name.outcome.Success()
  }

  /** What collect returns: the metric of every taken results row, in row
      order. */
  function Collected(rows: seq<Row<Label>>, vals: seq<seq<Value>>, problem: string, planner: string, m: Metric): seq<int>
    requires |rows| == |vals| && Rectangular(vals, ResultsWidth)
  {
    if rows == [] then []
    else
      var n := |rows| - 1;
      Collected(rows[..n], vals[..n], problem, planner, m)
        + (if Taken(rows[n], vals[n], problem, planner) then [Measure(rows[n].name.outcome, m)] else [])
  }

  function LongOrNull(n: Option<int>): Value {
    match n
    case None => Null
    case Some(x) => Lng(x)
  }

  function DoubleOrNull(d: Option<real>): Value {
    match d
    case None => Null
    case Some(x) => Dbl(x)
  }

  /** The min, max, avg and std cells of one metric. */
  function MetricValues(xs: seq<int>, sqrt: real -> real): seq<Value> {
    [LongOrNull(Least(xs)), LongOrNull(Greatest(xs)), DoubleOrNull(Average(xs)), DoubleOrNull(Deviation(xs, sqrt))]
  }

  /** The summary row of a problem and a planner. */
  function SummaryValues(p: Problem, l: Planner, rows: seq<Row<Label>>, vals: seq<seq<Value>>, sqrt: real -> real): seq<Value>
    requires |rows| == |vals| && Rectangular(vals, ResultsWidth)
  {
    [Str(p.name), Str(l.name)]
      + MetricValues(Collected(rows, vals, p.name, l.name, Visited), sqrt)
      + MetricValues(Collected(rows, vals, p.name, l.name, Generated), sqrt)
      + MetricValues(Collected(rows, vals, p.name, l.name, Time), sqrt)
  }

  /** The average of a metric for each planner on a problem. */
  function Averages(p: Problem, planners: seq<Planner>, rows: seq<Row<Label>>, vals: seq<seq<Value>>, m: Metric): seq<Option<real>>
    requires |rows| == |vals| && Rectangular(vals, ResultsWidth)
  {
    seq(|planners|, j requires 0 <= j < |planners| => Average(Collected(rows, vals, p.name, planners[j].name, m)))
  }

  /** The best planner's name and average, or two nulls when there is no
      best planner. */
  function Choice(planners: seq<Planner>, b: Option<(nat, real)>): seq<Value>
    requires b.Some? ==> b.value.0 < |planners|
  {
    match b
    case None => [Null, Null]
    case Some((k, a)) => [Str(planners[k].name), Dbl(a)]
  }

  /** The best row of a problem. */
  function BestValues(p: Problem, planners: seq<Planner>, rows: seq<Row<Label>>, vals: seq<seq<Value>>): seq<Value>
    requires |rows| == |vals| && Rectangular(vals, ResultsWidth)
  {
    [Str(p.name)]
      + Choice(planners, Best(Averages(p, planners, rows, vals, Visited)))
      + Choice(planners, Best(Averages(p, planners, rows, vals, Generated)))
      + Choice(planners, Best(Averages(p, planners, rows, vals, Time)))
  }

  /** The summary rows of one problem, one per planner. */
  function PlannerRows(p: Problem, planners: seq<Planner>, rows: seq<Row<Label>>, vals: seq<seq<Value>>, sqrt: real -> real): seq<seq<Value>>
    requires |rows| == |vals| && Rectangular(vals, ResultsWidth)
  {
    if planners == [] then []
    else
      var n := |planners| - 1;
      PlannerRows(p, planners[..n], rows, vals, sqrt) + [SummaryValues(p, planners[n], rows, vals, sqrt)]
  }

  /** The labels of the summary rows of one problem: the (problem, planner)
      pairs. */
  function PlannerKeys(p: Problem, planners: seq<Planner>): seq<Label> {
    if planners == [] then []
    else
      var n := |planners| - 1;
      PlannerKeys(p, planners[..n]) + [PairLabel(p, planners[n])]
  }

  /** The summary table's rows: problem by problem, each problem's planners
      in order. */
  function SummaryGrid(problems: seq<Problem>, planners: seq<Planner>, rows: seq<Row<Label>>, vals: seq<seq<Value>>, sqrt: real -> real): seq<seq<Value>>
    requires |rows| == |vals| && Rectangular(vals, ResultsWidth)
  {
    if problems == [] then []
    else
      var n := |problems| - 1;
      SummaryGrid(problems[..n], planners, rows, vals, sqrt) + PlannerRows(problems[n], planners, rows, vals, sqrt)
  }

  function SummaryKeys(problems: seq<Problem>, planners: seq<Planner>): seq<Label> {
    if problems == [] then []
    else
      var n := |problems| - 1;
      SummaryKeys(problems[..n], planners) + PlannerKeys(problems[n], planners)
  }

  /** The best table's rows, one per problem. */
  function BestGrid(problems: seq<Problem>, planners: seq<Planner>, rows: seq<Row<Label>>, vals: seq<seq<Value>>): seq<seq<Value>>
    requires |rows| == |vals| && Rectangular(vals, ResultsWidth)
  {
    if problems == [] then []
    else
      var n := |problems| - 1;
      BestGrid(problems[..n], planners, rows, vals) + [BestValues(problems[n], planners, rows, vals)]
  }

  /** One problem's summary keys: one per planner, in planner order. */
  lemma {:induction false} PlannerKeysAt(p: Problem, planners: seq<Planner>, j: nat)
    requires j < |planners|
    ensures |PlannerKeys(p, planners)| == |planners|
    ensures PlannerKeys(p, planners)[j] == PairLabel(p, planners[j])
  {
    var n := |planners| - 1;
    if j < n {
      PlannerKeysAt(p, planners[..n], j);
    } else if n > 0 {
      PlannerKeysAt(p, planners[..n], 0);
    }
  }

  /** One problem's summary rows: one per planner, in planner order. */
  lemma PlannerRowsAt(p: Problem, planners: seq<Planner>, rows: seq<Row<Label>>, vals: seq<seq<Value>>, sqrt: real -> real, j: nat)
    requires |rows| == |vals| && Rectangular(vals, ResultsWidth) && j < |planners|
    ensures |PlannerRows(p, planners, rows, vals, sqrt)| == |planners|
    ensures PlannerRows(p, planners, rows, vals, sqrt)[j] == SummaryValues(p, planners[j], rows, vals, sqrt)
  {
    PlannerRowsLine(p, planners, rows, vals, sqrt);
    LineEntry(p, planners, SummaryRowOf(rows, vals, sqrt), j);
  }

  /** There is one summary key per (problem, planner) pair. */
  lemma {:induction false} SummaryKeysLength(problems: seq<Problem>, planners: seq<Planner>)
    ensures |SummaryKeys(problems, planners)| == |problems| * |planners|
  {
    if problems != [] {
      var n := |problems| - 1;
      SummaryKeysLength(problems[..n], planners);
      if planners != [] {
        PlannerKeysAt(problems[n], planners, 0);
      }
      MulFacts(n, 1, |planners|);
    }
  }

  /** There is one summary row per (problem, planner) pair. */
  lemma SummaryGridLength(problems: seq<Problem>, planners: seq<Planner>, rows: seq<Row<Label>>, vals: seq<seq<Value>>, sqrt: real -> real)
    requires |rows| == |vals| && Rectangular(vals, ResultsWidth)
    ensures |SummaryGrid(problems, planners, rows, vals, sqrt)| == |problems| * |planners|
  {
    SummaryGridProduct(problems, planners, rows, vals, sqrt);
    ProductLength(problems, planners, SummaryRowOf(rows, vals, sqrt));
  }

  /** The position of pair (i, j) in a problem-major listing of n
      problems by w planners. */
  lemma PairPosition(i: nat, j: nat, n: nat, w: nat)
    requires i < n && j < w
    ensures i * w + j < n * w
    ensures n * w == (n - 1) * w + w
    ensures i < n - 1 ==> i * w + j < (n - 1) * w
  {
    MulFacts(n - 1, 1, w);
    MulLeq(i, n - 1, w);
    if i < n - 1 {
      MulFacts(i, 1, w);
      MulLeq(i + 1, n - 1, w);
    }
  }

  /** The summary key of problem i and planner j is at i * |planners| + j. */
  lemma {:induction false} SummaryKeyEntry(problems: seq<Problem>, planners: seq<Planner>, i: nat, j: nat)
    requires i < |problems| && j < |planners|
    ensures 0 <= i * |planners| + j < |SummaryKeys(problems, planners)|
    ensures SummaryKeys(problems, planners)[i * |planners| + j] == PairLabel(problems[i], planners[j])
  {
    var n := |problems| - 1;
    SummaryKeysLength(problems, planners);
    SummaryKeysLength(problems[..n], planners);
    PairPosition(i, j, |problems|, |planners|);
    PlannerKeysAt(problems[n], planners, j);
    if i < n {
      SummaryKeyEntry(problems[..n], planners, i, j);
    }
  }

  /** The rows f(p, l) of one p, one per l, in the order of ls. */
  function Line<P, L, T>(p: P, ls: seq<L>, f: (P, L) -> T): seq<T> {
    if ls == [] then []
    else Line(p, ls[..|ls| - 1], f) + [f(p, ls[|ls| - 1])]
  }

  /** The rows f(p, l) of every pair, p by p, each p's row in the order
      of ls. */
  function Product<P, L, T>(ps: seq<P>, ls: seq<L>, f: (P, L) -> T): seq<T> {
    if ps == [] then []
    else Product(ps[..|ps| - 1], ls, f) + Line(ps[|ps| - 1], ls, f)
  }

  lemma {:induction false} LineEntry<P, L, T>(p: P, ls: seq<L>, f: (P, L) -> T, j: nat)
    requires j < |ls|
    ensures |Line(p, ls, f)| == |ls|
    ensures Line(p, ls, f)[j] == f(p, ls[j])
  {
    var n := |ls| - 1;
    if j < n {
      LineEntry(p, ls[..n], f, j);
    } else if n > 0 {
      LineEntry(p, ls[..n], f, 0);
    }
  }

  lemma {:induction false} ProductLength<P, L, T>(ps: seq<P>, ls: seq<L>, f: (P, L) -> T)
    ensures |Product(ps, ls, f)| == |ps| * |ls|
  {
    if ps != [] {
      var n := |ps| - 1;
      ProductLength(ps[..n], ls, f);
      if ls != [] {
        LineEntry(ps[n], ls, f, 0);
      }
      MulFacts(n, 1, |ls|);
    }
  }

  /** Pair (i, j) sits at i * |ls| + j. */
  lemma {:induction false} ProductEntry<P, L, T>(ps: seq<P>, ls: seq<L>, f: (P, L) -> T, i: nat, j: nat)
    requires i < |ps| && j < |ls|
    ensures 0 <= i * |ls| + j < |Product(ps, ls, f)|
    ensures Product(ps, ls, f)[i * |ls| + j] == f(ps[i], ls[j])
  {
    var n := |ps| - 1;
    ProductLength(ps, ls, f);
    ProductLength(ps[..n], ls, f);
    PairPosition(i, j, |ps|, |ls|);
    LineEntry(ps[n], ls, f, j);
    if i < n {
      ProductEntry(ps[..n], ls, f, i, j);
    }
  }

  /** The summary row of a pair, as a function of the pair. */
  function SummaryRowOf(rows: seq<Row<Label>>, vals: seq<seq<Value>>, sqrt: real -> real): (Problem, Planner) -> seq<Value>
    requires |rows| == |vals| && Rectangular(vals, ResultsWidth)
  {
    (p: Problem, l: Planner) => SummaryValues(p, l, rows, vals, sqrt)
  }

  /** One problem's summary rows are its line of summary rows. */
  lemma {:induction false} PlannerRowsLine(p: Problem, planners: seq<Planner>, rows: seq<Row<Label>>, vals: seq<seq<Value>>, sqrt: real -> real)
    requires |rows| == |vals| && Rectangular(vals, ResultsWidth)
    ensures PlannerRows(p, planners, rows, vals, sqrt) == Line(p, planners, SummaryRowOf(rows, vals, sqrt))
  {
    if planners != [] {
      PlannerRowsLine(p, planners[..|planners| - 1], rows, vals, sqrt);
    }
  }

  /** The summary rows are the product of the problems and the planners. */
  lemma {:induction false} SummaryGridProduct(problems: seq<Problem>, planners: seq<Planner>, rows: seq<Row<Label>>, vals: seq<seq<Value>>, sqrt: real -> real)
    requires |rows| == |vals| && Rectangular(vals, ResultsWidth)
    ensures SummaryGrid(problems, planners, rows, vals, sqrt) == Product(problems, planners, SummaryRowOf(rows, vals, sqrt))
  {
    if problems != [] {
      var n := |problems| - 1;
      SummaryGridProduct(problems[..n], planners, rows, vals, sqrt);
      PlannerRowsLine(problems[n], planners, rows, vals, sqrt);
    }
  }

  /** The summary row of problem i and planner j is at i * |planners| + j
      and holds that pair's summary values. */
  lemma SummaryRowEntry(problems: seq<Problem>, planners: seq<Planner>, rows: seq<Row<Label>>, vals: seq<seq<Value>>, sqrt: real -> real, i: nat, j: nat)
    requires |rows| == |vals| && Rectangular(vals, ResultsWidth)
    requires i < |problems| && j < |planners|
    ensures 0 <= i * |planners| + j < |SummaryGrid(problems, planners, rows, vals, sqrt)|
    ensures SummaryGrid(problems, planners, rows, vals, sqrt)[i * |planners| + j] == SummaryValues(problems[i], planners[j], rows, vals, sqrt)
  {
    SummaryGridProduct(problems, planners, rows, vals, sqrt);
    ProductEntry(problems, planners, SummaryRowOf(rows, vals, sqrt), i, j);
  }

  /** The best table has one row per problem. */
  lemma {:induction false} BestGridLength(problems: seq<Problem>, planners: seq<Planner>, rows: seq<Row<Label>>, vals: seq<seq<Value>>)
    requires |rows| == |vals| && Rectangular(vals, ResultsWidth)
    ensures |BestGrid(problems, planners, rows, vals)| == |problems|
  {
    if problems != [] {
      var n := |problems| - 1;
      BestGridLength(problems[..n], planners, rows, vals);
      BestGridSnoc(problems, planners, rows, vals, n);
      Sequences.TakeAll(problems);
    }
  }

  /** The best row of problem i is the i-th row of the best table. */
  lemma BestEntry(problems: seq<Problem>, planners: seq<Planner>, rows: seq<Row<Label>>, vals: seq<seq<Value>>, i: nat)
    requires |rows| == |vals| && Rectangular(vals, ResultsWidth) && i < |problems|
    ensures |BestGrid(problems, planners, rows, vals)| == |problems|
    ensures BestGrid(problems, planners, rows, vals)[i] == BestValues(problems[i], planners, rows, vals)
  {
    BestRowFor(problems, planners, rows, vals, i, problems[i]);
  }

  /** BestEntry with the problem named, so that the induction keeps one
      best row in view. */
  lemma {:induction false} BestRowFor(problems: seq<Problem>, planners: seq<Planner>, rows: seq<Row<Label>>, vals: seq<seq<Value>>, i: nat, q: Problem)
    requires |rows| == |vals| && Rectangular(vals, ResultsWidth) && i < |problems| && problems[i] == q
    ensures |BestGrid(problems, planners, rows, vals)| == |problems|
    ensures BestGrid(problems, planners, rows, vals)[i] == BestValues(q, planners, rows, vals)
  {
    var n := |problems| - 1;
    BestGridLength(problems, planners, rows, vals);
    if i < n {
      BestGridEarlier(problems, planners, rows, vals, i);
      assert problems[..n][i] == q;
      BestRowFor(problems[..n], planners, rows, vals, i, q);
    } else {
      BestGridLast(problems, planners, rows, vals, i, q);
    }
  }

  /** The last problem's best row comes last. */
  lemma BestGridLast(problems: seq<Problem>, planners: seq<Planner>, rows: seq<Row<Label>>, vals: seq<seq<Value>>, i: nat, q: Problem)
    requires |rows| == |vals| && Rectangular(vals, ResultsWidth)
    requires i == |problems| - 1 && problems[i] == q
    ensures |BestGrid(problems, planners, rows, vals)| == |problems|
    ensures BestGrid(problems, planners, rows, vals)[i] == BestValues(q, planners, rows, vals)
  {
    BestGridLength(problems[..i], planners, rows, vals);
    BestGridSnoc(problems, planners, rows, vals, i);
    Sequences.TakeAll(problems);
  }

  /** Adding a problem leaves the earlier problems' best rows in place. */
  lemma BestGridEarlier(problems: seq<Problem>, planners: seq<Planner>, rows: seq<Row<Label>>, vals: seq<seq<Value>>, i: nat)
    requires |rows| == |vals| && Rectangular(vals, ResultsWidth) && i < |problems| - 1
    ensures |BestGrid(problems[..|problems| - 1], planners, rows, vals)| == |problems| - 1
    ensures BestGrid(problems, planners, rows, vals)[i] == BestGrid(problems[..|problems| - 1], planners, rows, vals)[i]
  {
    var n := |problems| - 1;
    BestGridLength(problems, planners, rows, vals);
    BestGridLength(problems[..n], planners, rows, vals);
    BestGridSnoc(problems, planners, rows, vals, n);
    Sequences.TakeAll(problems);
  }

  /** The problems labelling the compiled table's rows. */
  function ProblemsOf(rows: seq<Row<Label>>): seq<Problem>
    requires forall i :: 0 <= i < |rows| ==> rows[i].name.ProblemLabel?
  {
    seq(|rows|, i requires 0 <= i < |rows| => rows[i].name.problem)
  }

  /** The planners labelling the planners table's rows. */
  function PlannersOf(rows: seq<Row<Label>>): seq<Planner>
    requires forall j :: 0 <= j < |rows| ==> rows[j].name.PlannerLabel?
  {
    seq(|rows|, j requires 0 <= j < |rows| => rows[j].name.planner)
  }

  // ---------------------------------------------------------------------
  // Writing rows

  /** A new table with the given columns, added in order. */
  method NewTable(schema: seq<Column>) returns (t: Table<Label>)
    ensures fresh(t) && t.Valid() && t.columns == schema && t.rows == [] && t.vals == []
  {
    t := new Table();
    for i := 0 to |schema|
      invariant fresh(t) && t.Valid() && t.columns == schema[..i] && t.rows == [] && t.vals == []
    {
      var column := t.AddColumn(schema[i].name, schema[i].valueType);
      assert schema[..i + 1] == schema[..i] + [schema[i]];
    }
    assert schema[..|schema|] == schema;
  }

  /** A new problems table, with no rows yet. */
  method NewProblemTable() returns (t: Table<Label>)
    ensures fresh(t) && ProblemTable(t) && t.rows == []
  {
    t := NewTable(ProblemsSchema);
  }

  /** A new planners table, with no rows yet. */
  method NewPlannerTable() returns (t: Table<Label>)
    ensures fresh(t) && PlannerTable(t) && t.rows == []
  {
    t := NewTable(PlannersSchema);
  }

  /** A new results table, with no rows yet. */
  method NewResultTable() returns (t: Table<Label>)
    ensures fresh(t) && ResultTable(t) && t.rows == []
  {
    t := NewTable(ResultsSchema);
  }

  /** A new summary table, with no rows yet. */
  method NewSummaryTable() returns (t: Table<Label>)
    ensures fresh(t) && SummaryTable(t) && t.rows == []
  {
    t := NewTable(SummarySchema);
  }

  /** A new best table, with no rows yet. */
  method NewBestTable() returns (t: Table<Label>)
    ensures fresh(t) && BestTable(t) && t.rows == []
  {
    t := NewTable(BestSchema);
  }

  /** The first row with a label that no earlier row has is that row. */
  lemma FirstRowOfNew(rows: seq<Row<Label>>, key: Label)
    requires |rows| > 0 && rows[|rows| - 1].name == key
    requires key !in Names(rows[..|rows| - 1])
    ensures FirstRow(rows, key) == Some(|rows| - 1)
  {
    var n := |rows| - 1;
    forall i | 0 <= i < n
      ensures rows[i].name != key
    {
      assert Names(rows[..n])[i] == rows[i].name;
    }
  }

  /** The table.set(label, column, value) calls that fill the row just added
      for a label, one per column in column order. */
  method WriteRow(t: Table<Label>, key: Label, values: seq<Value>)
    requires t.Valid() && |t.rows| > 0 && FirstRow(t.rows, key) == Some(|t.rows| - 1)
    requires DistinctNames(t.columns) && |values| == |t.columns|
    requires forall k :: 0 <= k < |values| ==> Conforms(values[k], t.columns[k].valueType)
    modifies t
    ensures t.Valid() && t.columns == old(t.columns) && t.rows == old(t.rows) && t.nextId == old(t.nextId)
    ensures t.vals == old(t.vals)[|t.rows| - 1 := values]
  {
    ghost var last := |t.rows| - 1;
    ghost var before := old(t.vals)[last];
    PartialNone(values, before);
    assert old(t.vals)[last := before] == old(t.vals);
    for k := 0 to |values|
      invariant t.Valid() && t.columns == old(t.columns) && t.rows == old(t.rows) && t.nextId == old(t.nextId)
      invariant t.vals == old(t.vals)[last := Partial(values, before, k)]
    {
      assert FirstColumn(t.columns, t.columns[k].name) == Some(k);
      var written := t.Set(key, t.columns[k].name, values[k]);
      PartialStep(values, before, k);
    }
    PartialAll(values, before);
  }

  /** The row after the first k of its cells have been written. */
  function Partial(values: seq<Value>, before: seq<Value>, k: nat): seq<Value>
    requires k <= |values| == |before|
  {
    values[..k] + before[k..]
  }

  lemma PartialNone(values: seq<Value>, before: seq<Value>)
    requires |values| == |before|
    ensures Partial(values, before, 0) == before
  {
  }

  lemma PartialStep(values: seq<Value>, before: seq<Value>, k: nat)
    requires k < |values| == |before|
    ensures Partial(values, before, k)[k := values[k]] == Partial(values, before, k + 1)
  {
  }

  lemma PartialAll(values: seq<Value>, before: seq<Value>)
    requires |values| == |before|
    ensures Partial(values, before, |values|) == values
  {
  }


  // ---------------------------------------------------------------------
  // The tables' invariants

  /** The problems and compiled tables: one row per problem, each labelled
      by a different problem. */
  ghost predicate ProblemTable(t: Table<Label>)
    reads t
  {
    && t.Valid() && t.columns == ProblemsSchema
    && (forall i :: 0 <= i < |t.rows| ==> t.rows[i].name.ProblemLabel?)
    && DistinctLabels(t.rows)
  }

  /** The planners table: one row per planner, each labelled by a different
      planner. */
  ghost predicate PlannerTable(t: Table<Label>)
    reads t
  {
    && t.Valid() && t.columns == PlannersSchema
    && (forall j :: 0 <= j < |t.rows| ==> t.rows[j].name.PlannerLabel?)
    && DistinctLabels(t.rows)
  }

  /** The results table: each row labelled by a result, with a problem name
      and a planner name. */
  ghost predicate ResultTable(t: Table<Label>)
    reads t
  {
    && t.Valid() && t.columns == ResultsSchema
    && (forall r :: 0 <= r < |t.rows| ==> t.rows[r].name.ResultLabel?)
    && (forall r :: 0 <= r < |t.rows| ==> t.vals[r][0].Str? && t.vals[r][1].Str?)
  }

  ghost predicate SummaryTable(t: Table<Label>)
    reads t
  {
    t.Valid() && t.columns == SummarySchema
  }

  ghost predicate BestTable(t: Table<Label>)
    reads t
  {
    t.Valid() && t.columns == BestSchema
  }

  // ---------------------------------------------------------------------
  // The report

  class Report {
    /** One row per benchmark problem, as parsed. */
    const problems: Table<Label>
    /** One row per benchmark problem, as compiled; same columns as problems. */
    const compiled: Table<Label>
    /** One row per planner. */
    const planners: Table<Label>
    /** One row per search. */
    const results: Table<Label>
    /** One row per (problem, planner) pair, filled by setEnd. */
    const summary: Table<Label>
    /** One row per problem naming its best planners, filled by setEnd. */
    const best: Table<Label>
    /** The time the tests started, -1 until setStart. */
    var start: int
    /** The time the tests ended, -1 until setEnd. */
    var end: int

    /** The six tables are six objects. */
    ghost predicate Separate() {
      && problems != compiled && problems != planners && problems != results && problems != summary && problems != best
      && compiled != planners && compiled != results && compiled != summary && compiled != best
      && planners != results && planners != summary && planners != best
      && results != summary && results != best
      && summary != best
    }

    ghost predicate Valid()
      reads this, problems, compiled, planners, results, summary, best
    {
      && Separate()
      && ProblemTable(problems) && ProblemTable(compiled) && PlannerTable(planners)
      && ResultTable(results) && SummaryTable(summary) && BestTable(best)
      && (end == -1 ==> summary.rows == [] && best.rows == [])
    }

    /** The summary and best tables as setEnd fills them from the compiled
        problems, the planners and the results. */
    ghost predicate Summarized(sqrt: real -> real)
      reads this, problems, compiled, planners, results, summary, best
      requires Valid()
    {
      var ps := ProblemsOf(compiled.rows);
      var ls := PlannersOf(planners.rows);
      && Names(summary.rows) == SummaryKeys(ps, ls)
      && summary.vals == SummaryGrid(ps, ls, results.rows, results.vals, sqrt)
      && Names(best.rows) == Names(compiled.rows)
      && best.vals == BestGrid(ps, ls, results.rows, results.vals)
    }

    /** The constructor: six empty tables with their columns; the compiled
        table copies the problems table's columns. */
    constructor ()
      ensures Valid() && start == -1 && end == -1
      ensures compiled.columns == problems.columns
      ensures problems.rows == [] && compiled.rows == [] && planners.rows == []
      ensures results.rows == [] && summary.rows == [] && best.rows == []
      ensures fresh(problems) && fresh(compiled) && fresh(planners) && fresh(results) && fresh(summary) && fresh(best)
    {
      var p := NewProblemTable();
      var c := NewProblemTable();
      var l := NewPlannerTable();
      var r := NewResultTable();
      var s := NewSummaryTable();
      var b := NewBestTable();
      problems, compiled, planners, results, summary, best := p, c, l, r, s, b;
      start, end := -1, -1;
    }

    /** setStart: records the clock once; a second call throws. */
    method SetStart(now: nat) returns (r: Result<(), Exception>)
      requires Valid()
      modifies this
      ensures Valid() && end == old(end)
      ensures old(start) == -1 ==> r == Ok(()) && start == now
      ensures old(start) != -1 ==> r == Err(IllegalState) && start == old(start)
    {
      if start == -1 {
        start := now;
        return Ok(());
      }
      return Err(IllegalState);
    }

    /** setEnd: records the clock and fills the summary and best tables,
        once; a second call throws and changes nothing. */
    method SetEnd(now: nat, sqrt: real -> real) returns (r: Result<(), Exception>)
      requires Valid()
      modifies this, summary, best
      ensures Valid() && start == old(start)
      ensures old(end) == -1 ==> r == Ok(()) && end == now && Summarized(sqrt)
      ensures old(end) != -1 ==> r == Err(IllegalState) && end == old(end)
      ensures old(end) != -1 ==> summary.rows == old(summary.rows) && summary.vals == old(summary.vals)
      ensures old(end) != -1 ==> best.rows == old(best.rows) && best.vals == old(best.vals)
    {
      if end == -1 {
        end := now;
        FillSummary(sqrt);
        return Ok(());
      }
      return Err(IllegalState);
    }

    /** fillSummary: for each compiled problem in order, a summary row for
        every planner in order, then the problem's best row. */
    method FillSummary(sqrt: real -> real)
      requires Valid() && end != -1 && summary.rows == [] && best.rows == []
      modifies summary, best
      ensures Valid() && Summarized(sqrt)
    {
      Summarize(compiled, planners, results, summary, best, sqrt);
    }

    /** addProblem: a row for the problem in the problems table and one for
        the compiled problem in the compiled table. */
    method AddProblem(b: Benchmark)
      requires Valid()
      requires ProblemLabel(b.problem) !in Names(problems.rows)
      requires ProblemLabel(b.compiled) !in Names(compiled.rows)
      modifies problems, compiled
      ensures Valid()
      ensures Names(problems.rows) == Names(old(problems.rows)) + [ProblemLabel(b.problem)]
      ensures problems.vals == old(problems.vals) + [ProblemValues(b, b.problem)]
      ensures Names(compiled.rows) == Names(old(compiled.rows)) + [ProblemLabel(b.compiled)]
      ensures compiled.vals == old(compiled.vals) + [ProblemValues(b, b.compiled)]
    {
      ProblemsNamesDistinct();
      ProblemValuesConform(b, b.problem);
      AddLabelledRow(problems, ProblemLabel(b.problem), ProblemValues(b, b.problem));
      LabelsAfter(old(problems.rows), problems.rows, ProblemLabel(b.problem));
      ProblemValuesConform(b, b.compiled);
      AddLabelledRow(compiled, ProblemLabel(b.compiled), ProblemValues(b, b.compiled));
      LabelsAfter(old(compiled.rows), compiled.rows, ProblemLabel(b.compiled));
    }

    /** addPlanner: a row for the planner. */
    method AddPlanner(l: Planner)
      requires Valid()
      requires PlannerLabel(l) !in Names(planners.rows)
      modifies planners
      ensures Valid()
      ensures Names(planners.rows) == Names(old(planners.rows)) + [PlannerLabel(l)]
      ensures planners.vals == old(planners.vals) + [PlannerValues(l)]
    {
      PlannersNamesDistinct();
      AddLabelledRow(planners, PlannerLabel(l), PlannerValues(l));
      LabelsAfter(old(planners.rows), planners.rows, PlannerLabel(l));
    }

    /** addResult: a row for the result of one search. */
    method AddResult(b: Benchmark, l: Planner, run: int, o: Outcome)
      requires Valid()
      requires ResultLabel(o) !in Names(results.rows)
      modifies results
      ensures Valid()
      ensures Names(results.rows) == Names(old(results.rows)) + [ResultLabel(o)]
      ensures results.vals == old(results.vals) + [ResultValues(b, l, run, o)]
    {
      ResultsNamesDistinct();
      ResultValuesConform(b, l, run, o);
      AddLabelledRow(results, ResultLabel(o), ResultValues(b, l, run, o));
      LabelsAfter(old(results.rows), results.rows, ResultLabel(o));
    }
  }

  /** addRow(label) followed by one set(label, column, value) per column:
      a new last row with the label and the values. */
  method AddLabelledRow(t: Table<Label>, key: Label, values: seq<Value>)
    requires t.Valid() && key !in Names(t.rows)
    requires DistinctNames(t.columns) && |values| == |t.columns|
    requires forall k :: 0 <= k < |values| ==> Conforms(values[k], t.columns[k].valueType)
    modifies t
    ensures t.Valid() && t.columns == old(t.columns)
    ensures Names(t.rows) == Names(old(t.rows)) + [key]
    ensures t.vals == old(t.vals) + [values]
  {
    var row := t.AddRow(key);
    assert t.rows[..|t.rows| - 1] == old(t.rows);
    FirstRowOfNew(t.rows, key);
    WriteRow(t, key, values);
    NamesSnoc(old(t.rows), row);
  }

  lemma NamesSnoc(rows: seq<Row<Label>>, row: Row<Label>)
    ensures Names(rows + [row]) == Names(rows) + [row.name]
  {
  }

  /** Rows whose labels are the old ones and one more: the old rows keep
      their labels and a fresh label keeps them distinct. */
  lemma LabelsAfter(before: seq<Row<Label>>, after: seq<Row<Label>>, key: Label)
    requires Names(after) == Names(before) + [key]
    ensures |after| == |before| + 1 && after[|before|].name == key
    ensures forall i :: 0 <= i < |before| ==> after[i].name == before[i].name
    ensures DistinctLabels(before) && key !in Names(before) ==> DistinctLabels(after)
  {
    assert |Names(after)| == |Names(before)| + 1;
    forall i | 0 <= i < |after|
      ensures after[i].name == (Names(before) + [key])[i]
    {
      assert Names(after)[i] == after[i].name;
    }
    if DistinctLabels(before) && key !in Names(before) {
      forall i | 0 <= i < |before|
        ensures before[i].name != key
      {
        assert Names(before)[i] == before[i].name;
      }
    }
  }

  lemma ProblemValuesConform(b: Benchmark, p: Problem)
    ensures |ProblemValues(b, p)| == |ProblemsSchema|
    ensures forall k :: 0 <= k < |ProblemsSchema| ==> Conforms(ProblemValues(b, p)[k], ProblemsSchema[k].valueType)
  {
  }

  lemma ResultValuesConform(b: Benchmark, l: Planner, run: int, o: Outcome)
    ensures |ResultValues(b, l, run, o)| == |ResultsSchema|
    ensures forall k :: 0 <= k < |ResultsSchema| ==> Conforms(ResultValues(b, l, run, o)[k], ResultsSchema[k].valueType)
  {
  }

  // ---------------------------------------------------------------------
  // Collecting and summarizing results

  /** collect: the metric of every successful results row for the problem
      and planner, in row order. A problem or planner cell must hold a
      string: the source dereferences it. */
  method Collect(results: Table<Label>, problem: string, planner: string, m: Metric) returns (values: seq<int>)
    requires ResultTable(results)
    ensures values == Collected(results.rows, results.vals, problem, planner, m)
  {
    values := [];
    for r := 0 to |results.rows|
      invariant values == Collected(results.rows[..r], results.vals[..r], problem, planner, m)
    {
      var taken := IsTaken(results, r, problem, planner);
      CollectedSnoc(results.rows, results.vals, problem, planner, m, r);
      if taken {
        values := values + [Measure(results.rows[r].name.outcome, m)];
      }
    }
    assert results.rows[..|results.rows|] == results.rows;
    assert results.vals[..|results.vals|] == results.vals;
  }

  /** The test collect applies to one results row: its problem and planner
      cells hold the names asked for and its outcome is a success. */
  method IsTaken(results: Table<Label>, r: nat, problem: string, planner: string) returns (taken: bool)
    requires ResultTable(results) && r < |results.rows|
    ensures taken == Taken(results.rows[r], results.vals[r], problem, planner)
  {
    ResultsNamesDistinct();
    assert results.columns[0].name == ResultsProblem && results.columns[1].name == ResultsPlanner;
    assert FirstColumn(results.columns, ResultsProblem) == Some(0);
    assert FirstColumn(results.columns, ResultsPlanner) == Some(1);
    var problemCell := results.RowCell(r, ResultsProblem);
    var plannerCell := results.RowCell(r, ResultsPlanner);
    var key := results.rows[r].name;
    taken := problemCell.value.value == Str(problem) && plannerCell.value.value == Str(planner) && key.ResultLabel? && key.outcome.Success();
  }

  lemma CollectedSnoc(rows: seq<Row<Label>>, vals: seq<seq<Value>>, problem: string, planner: string, m: Metric, r: nat)
    requires |rows| == |vals| && Rectangular(vals, ResultsWidth) && r < |rows|
    ensures Collected(rows[..r + 1], vals[..r + 1], problem, planner, m)
      == Collected(rows[..r], vals[..r], problem, planner, m)
         + (if Taken(rows[r], vals[r], problem, planner) then [Measure(rows[r].name.outcome, m)] else [])
  {
    assert rows[..r + 1][..r] == rows[..r];
    assert vals[..r + 1][..r] == vals[..r];
  }

  /** collect takes a value exactly when some results row is taken and
      has that value as its metric. */
  lemma {:induction false} CollectedMembers(rows: seq<Row<Label>>, vals: seq<seq<Value>>, problem: string, planner: string, m: Metric, x: int)
    requires |rows| == |vals| && Rectangular(vals, ResultsWidth)
    ensures x in Collected(rows, vals, problem, planner, m)
      <==> exists r :: 0 <= r < |rows| && Taken(rows[r], vals[r], problem, planner) && Measure(rows[r].name.outcome, m) == x
  {
    if rows != [] {
      var n := |rows| - 1;
      CollectedMembers(rows[..n], vals[..n], problem, planner, m, x);
      if x in Collected(rows, vals, problem, planner, m) && x !in Collected(rows[..n], vals[..n], problem, planner, m) {
        assert Taken(rows[n], vals[n], problem, planner) && Measure(rows[n].name.outcome, m) == x;
      }
      if exists r :: 0 <= r < |rows| && Taken(rows[r], vals[r], problem, planner) && Measure(rows[r].name.outcome, m) == x {
        var r :| 0 <= r < |rows| && Taken(rows[r], vals[r], problem, planner) && Measure(rows[r].name.outcome, m) == x;
        if r < n {
          assert rows[..n][r] == rows[r] && vals[..n][r] == vals[r];
        }
      }
    }
  }

  /** The summary row of one problem and planner (fillSummary's inner loop
      body): returns the planner's three averages for the best update. */
  method AddSummaryRow(summary: Table<Label>, results: Table<Label>, p: Problem, l: Planner, sqrt: real -> real)
    returns (avgVisited: Option<real>, avgGenerated: Option<real>, avgTime: Option<real>)
    requires summary != results && SummaryTable(summary) && ResultTable(results)
    requires PairLabel(p, l) !in Names(summary.rows)
    modifies summary
    ensures SummaryTable(summary)
    ensures Names(summary.rows) == Names(old(summary.rows)) + [PairLabel(p, l)]
    ensures summary.vals == old(summary.vals) + [SummaryValues(p, l, results.rows, results.vals, sqrt)]
    ensures avgVisited == Average(Collected(results.rows, results.vals, p.name, l.name, Visited))
    ensures avgGenerated == Average(Collected(results.rows, results.vals, p.name, l.name, Generated))
    ensures avgTime == Average(Collected(results.rows, results.vals, p.name, l.name, Time))
  {
    var visited := Collect(results, p.name, l.name, Visited);
    var visitedCells := MetricCells(visited, sqrt);
    avgVisited := Avg(visited);
    var generated := Collect(results, p.name, l.name, Generated);
    var generatedCells := MetricCells(generated, sqrt);
    avgGenerated := Avg(generated);
    var time := Collect(results, p.name, l.name, Time);
    var timeCells := MetricCells(time, sqrt);
    avgTime := Avg(time);
    SummaryNamesDistinct();
    SummaryValuesConform(p, l, results.rows, results.vals, sqrt);
    AddLabelledRow(summary, PairLabel(p, l), [Str(p.name), Str(l.name)] + visitedCells + generatedCells + timeCells);
  }

  /** The min, max, avg and std cells of one metric, as fillSummary sets
      them. */
  method MetricCells(xs: seq<int>, sqrt: real -> real) returns (cells: seq<Value>)
    ensures cells == MetricValues(xs, sqrt)
  {
    var min := Min(xs);
    var max := Max(xs);
    var avg := Avg(xs);
    var std := Std(xs, sqrt);
    cells := [LongOrNull(min), LongOrNull(max), DoubleOrNull(avg), DoubleOrNull(std)];
  }

  /** The best row of a problem: its name, then for each metric the best
      planner's name and average, left null when no planner succeeded. */
  method AddBestRow(best: Table<Label>, p: Problem, ls: seq<Planner>,
                    bestVisited: Option<(nat, real)>, bestGenerated: Option<(nat, real)>, bestTime: Option<(nat, real)>)
    requires BestTable(best) && ProblemLabel(p) !in Names(best.rows)
    requires bestVisited.Some? ==> bestVisited.value.0 < |ls|
    requires bestGenerated.Some? ==> bestGenerated.value.0 < |ls|
    requires bestTime.Some? ==> bestTime.value.0 < |ls|
    modifies best
    ensures BestTable(best)
    ensures Names(best.rows) == Names(old(best.rows)) + [ProblemLabel(p)]
    ensures best.vals == old(best.vals) + [[Str(p.name)] + Choice(ls, bestVisited) + Choice(ls, bestGenerated) + Choice(ls, bestTime)]
  {
    BestNamesDistinct();
    var values := [Str(p.name)] + Choice(ls, bestVisited) + Choice(ls, bestGenerated) + Choice(ls, bestTime);
    BestValuesConform(p, ls, bestVisited, bestGenerated, bestTime);
    AddLabelledRow(best, ProblemLabel(p), values);
  }

  /** fillSummary's outer loop: for each compiled problem in order, the
      summary rows of every planner, then the problem's best row. */
  method Summarize(compiled: Table<Label>, planners: Table<Label>, results: Table<Label>, summary: Table<Label>, best: Table<Label>, sqrt: real -> real)
    requires summary != best && summary !in {compiled, planners, results} && best !in {compiled, planners, results}
    requires ProblemTable(compiled) && PlannerTable(planners) && ResultTable(results)
    requires SummaryTable(summary) && BestTable(best) && summary.rows == [] && best.rows == []
    modifies summary, best
    ensures SummaryTable(summary) && BestTable(best)
    ensures Names(summary.rows) == SummaryKeys(ProblemsOf(compiled.rows), PlannersOf(planners.rows))
    ensures summary.vals == SummaryGrid(ProblemsOf(compiled.rows), PlannersOf(planners.rows), results.rows, results.vals, sqrt)
    ensures Names(best.rows) == Names(compiled.rows)
    ensures best.vals == BestGrid(ProblemsOf(compiled.rows), PlannersOf(planners.rows), results.rows, results.vals)
  {
    ghost var ps := ProblemsOf(compiled.rows);
    var ls := PlannersOf(planners.rows);
    PlannersDistinct(planners.rows);
    for i := 0 to |compiled.rows|
      invariant SummaryTable(summary) && BestTable(best)
      invariant Names(summary.rows) == SummaryKeys(ps[..i], ls)
      invariant summary.vals == SummaryGrid(ps[..i], ls, results.rows, results.vals, sqrt)
      invariant Names(best.rows) == Names(compiled.rows)[..i]
      invariant best.vals == BestGrid(ps[..i], ls, results.rows, results.vals)
    {
      var problem := compiled.rows[i].name.problem;
      ProblemFresh(compiled.rows, i);
      SummaryKeysFresh(ps[..i], ls, problem);
      ghost var keys, grid, bestKeys, bestGrid := Names(summary.rows), summary.vals, Names(best.rows), best.vals;
      AddProblemSummary(summary, best, results, ls, problem, sqrt);
      SummarizeProblemStep(ps, ls, results.rows, results.vals, sqrt, i, Names(compiled.rows),
                           keys, grid, Names(summary.rows), summary.vals, bestKeys, bestGrid, Names(best.rows), best.vals);
    }
    assert ps[..|compiled.rows|] == ps;
    assert Names(compiled.rows)[..|compiled.rows|] == Names(compiled.rows);
  }

  /** One pass of fillSummary's outer loop: the summary rows of a problem,
      then its best row. */
  method AddProblemSummary(summary: Table<Label>, best: Table<Label>, results: Table<Label>, ls: seq<Planner>, p: Problem, sqrt: real -> real)
    requires summary != best && summary != results && best != results
    requires SummaryTable(summary) && BestTable(best) && ResultTable(results)
    requires forall j, k :: 0 <= j < k < |ls| ==> ls[j] != ls[k]
    requires forall j :: 0 <= j < |ls| ==> PairLabel(p, ls[j]) !in Names(summary.rows)
    requires ProblemLabel(p) !in Names(best.rows)
    modifies summary, best
    ensures SummaryTable(summary) && BestTable(best)
    ensures Names(summary.rows) == Names(old(summary.rows)) + PlannerKeys(p, ls)
    ensures summary.vals == old(summary.vals) + PlannerRows(p, ls, results.rows, results.vals, sqrt)
    ensures Names(best.rows) == Names(old(best.rows)) + [ProblemLabel(p)]
    ensures best.vals == old(best.vals) + [BestValues(p, ls, results.rows, results.vals)]
  {
    var bestVisited, bestGenerated, bestTime := SummarizeProblem(summary, results, ls, p, sqrt);
    AddBestRow(best, p, ls, bestVisited, bestGenerated, bestTime);
    BestValuesChoices(p, ls, results.rows, results.vals);
  }

  /** fillSummary's inner loop: the summary rows of a problem, one per
      planner in order, while keeping for each metric the best planner so
      far (the first with the strictly smallest average). */
  method SummarizeProblem(summary: Table<Label>, results: Table<Label>, ls: seq<Planner>, p: Problem, sqrt: real -> real)
    returns (bestVisited: Option<(nat, real)>, bestGenerated: Option<(nat, real)>, bestTime: Option<(nat, real)>)
    requires summary != results && SummaryTable(summary) && ResultTable(results)
    requires forall j, k :: 0 <= j < k < |ls| ==> ls[j] != ls[k]
    requires forall j :: 0 <= j < |ls| ==> PairLabel(p, ls[j]) !in Names(summary.rows)
    modifies summary
    ensures SummaryTable(summary)
    ensures Names(summary.rows) == Names(old(summary.rows)) + PlannerKeys(p, ls)
    ensures summary.vals == old(summary.vals) + PlannerRows(p, ls, results.rows, results.vals, sqrt)
    ensures bestVisited == Best(Averages(p, ls, results.rows, results.vals, Visited))
    ensures bestGenerated == Best(Averages(p, ls, results.rows, results.vals, Generated))
    ensures bestTime == Best(Averages(p, ls, results.rows, results.vals, Time))
  {
    ghost var visitedAvgs := Averages(p, ls, results.rows, results.vals, Visited);
    ghost var generatedAvgs := Averages(p, ls, results.rows, results.vals, Generated);
    ghost var timeAvgs := Averages(p, ls, results.rows, results.vals, Time);
    bestVisited, bestGenerated, bestTime := None, None, None;
    for j := 0 to |ls|
      invariant SummaryTable(summary)
      invariant Names(summary.rows) == Names(old(summary.rows)) + PlannerKeys(p, ls[..j])
      invariant summary.vals == old(summary.vals) + PlannerRows(p, ls[..j], results.rows, results.vals, sqrt)
      invariant bestVisited == Best(visitedAvgs[..j])
      invariant bestGenerated == Best(generatedAvgs[..j])
      invariant bestTime == Best(timeAvgs[..j])
    {
      ghost var keys := Names(summary.rows);
      ghost var grid := summary.vals;
      PlannerKeysFresh(p, ls, j);
      var avgVisited, avgGenerated, avgTime := AddSummaryRow(summary, results, p, ls[j], sqrt);
      bestVisited := Improve(bestVisited, avgVisited, j);
      bestGenerated := Improve(bestGenerated, avgGenerated, j);
      bestTime := Improve(bestTime, avgTime, j);
      SummarizeStep(p, ls, results.rows, results.vals, sqrt, j, Names(old(summary.rows)), old(summary.vals), keys, grid, Names(summary.rows), summary.vals);
    }
    assert ls[..|ls|] == ls;
    assert visitedAvgs[..|ls|] == visitedAvgs;
    assert generatedAvgs[..|ls|] == generatedAvgs;
    assert timeAvgs[..|ls|] == timeAvgs;
  }

  /** One pass of fillSummary's outer loop extends the summary and best
      tables by one problem. */
  lemma SummarizeProblemStep(ps: seq<Problem>, ls: seq<Planner>, rows: seq<Row<Label>>, vals: seq<seq<Value>>, sqrt: real -> real, i: nat,
                             names: seq<Label>, keys: seq<Label>, grid: seq<seq<Value>>, keys': seq<Label>, grid': seq<seq<Value>>,
                             bestKeys: seq<Label>, bestGrid: seq<seq<Value>>, bestKeys': seq<Label>, bestGrid': seq<seq<Value>>)
    requires |rows| == |vals| && Rectangular(vals, ResultsWidth) && i < |ps| == |names| && names[i] == ProblemLabel(ps[i])
    requires keys == SummaryKeys(ps[..i], ls) && grid == SummaryGrid(ps[..i], ls, rows, vals, sqrt)
    requires bestKeys == names[..i] && bestGrid == BestGrid(ps[..i], ls, rows, vals)
    requires keys' == keys + PlannerKeys(ps[i], ls) && grid' == grid + PlannerRows(ps[i], ls, rows, vals, sqrt)
    requires bestKeys' == bestKeys + [ProblemLabel(ps[i])] && bestGrid' == bestGrid + [BestValues(ps[i], ls, rows, vals)]
    ensures keys' == SummaryKeys(ps[..i + 1], ls) && grid' == SummaryGrid(ps[..i + 1], ls, rows, vals, sqrt)
    ensures bestKeys' == names[..i + 1] && bestGrid' == BestGrid(ps[..i + 1], ls, rows, vals)
  {
    SummaryGridSnoc(ps, ls, rows, vals, sqrt, i);
    Sequences.TakeOneMore(names, i);
    BestGridSnoc(ps, ls, rows, vals, i);
  }

  lemma SummaryGridSnoc(ps: seq<Problem>, ls: seq<Planner>, rows: seq<Row<Label>>, vals: seq<seq<Value>>, sqrt: real -> real, i: nat)
    requires |rows| == |vals| && Rectangular(vals, ResultsWidth) && i < |ps|
    ensures SummaryKeys(ps[..i + 1], ls) == SummaryKeys(ps[..i], ls) + PlannerKeys(ps[i], ls)
    ensures SummaryGrid(ps[..i + 1], ls, rows, vals, sqrt) == SummaryGrid(ps[..i], ls, rows, vals, sqrt) + PlannerRows(ps[i], ls, rows, vals, sqrt)
  {
    Sequences.TakeOneMore(ps, i);
  }

  lemma BestValuesChoices(p: Problem, ls: seq<Planner>, rows: seq<Row<Label>>, vals: seq<seq<Value>>)
    requires |rows| == |vals| && Rectangular(vals, ResultsWidth)
    ensures BestValues(p, ls, rows, vals)
      == [Str(p.name)]
         + Choice(ls, Best(Averages(p, ls, rows, vals, Visited)))
         + Choice(ls, Best(Averages(p, ls, rows, vals, Generated)))
         + Choice(ls, Best(Averages(p, ls, rows, vals, Time)))
  {
  }

  /** One pass of fillSummary's inner loop extends the summary keys and
      rows and the best-so-far choices by one planner. */
  lemma SummarizeStep(p: Problem, ls: seq<Planner>, rows: seq<Row<Label>>, vals: seq<seq<Value>>, sqrt: real -> real, j: nat,
                      keys0: seq<Label>, grid0: seq<seq<Value>>, keys: seq<Label>, grid: seq<seq<Value>>, keys': seq<Label>, grid': seq<seq<Value>>)
    requires |rows| == |vals| && Rectangular(vals, ResultsWidth) && j < |ls|
    requires keys == keys0 + PlannerKeys(p, ls[..j]) && grid == grid0 + PlannerRows(p, ls[..j], rows, vals, sqrt)
    requires keys' == keys + [PairLabel(p, ls[j])] && grid' == grid + [SummaryValues(p, ls[j], rows, vals, sqrt)]
    ensures keys' == keys0 + PlannerKeys(p, ls[..j + 1]) && grid' == grid0 + PlannerRows(p, ls[..j + 1], rows, vals, sqrt)
    ensures forall m :: (Best(Averages(p, ls, rows, vals, m)[..j + 1])
      == Improve(Best(Averages(p, ls, rows, vals, m)[..j]), Average(Collected(rows, vals, p.name, ls[j].name, m)), j))
  {
    PlannerKeysSnoc(p, ls, j);
    PlannerRowsSnoc(p, ls, rows, vals, sqrt, j);
    Sequences.AppendAssoc(keys0, PlannerKeys(p, ls[..j]), [PairLabel(p, ls[j])]);
    Sequences.AppendAssoc(grid0, PlannerRows(p, ls[..j], rows, vals, sqrt), [SummaryValues(p, ls[j], rows, vals, sqrt)]);
    forall m
      ensures Best(Averages(p, ls, rows, vals, m)[..j + 1])
        == Improve(Best(Averages(p, ls, rows, vals, m)[..j]), Average(Collected(rows, vals, p.name, ls[j].name, m)), j)
    {
      BestSnoc(Averages(p, ls, rows, vals, m), j);
    }
  }

  lemma PlannerKeysSnoc(p: Problem, ls: seq<Planner>, j: nat)
    requires j < |ls|
    ensures PlannerKeys(p, ls[..j + 1]) == PlannerKeys(p, ls[..j]) + [PairLabel(p, ls[j])]
  {
    Sequences.TakeOneMore(ls, j);
  }

  lemma PlannerRowsSnoc(p: Problem, ls: seq<Planner>, rows: seq<Row<Label>>, vals: seq<seq<Value>>, sqrt: real -> real, j: nat)
    requires |rows| == |vals| && Rectangular(vals, ResultsWidth) && j < |ls|
    ensures PlannerRows(p, ls[..j + 1], rows, vals, sqrt) == PlannerRows(p, ls[..j], rows, vals, sqrt) + [SummaryValues(p, ls[j], rows, vals, sqrt)]
  {
    Sequences.TakeOneMore(ls, j);
  }

  /** Distinct planners give distinct summary keys within one problem. */
  lemma PlannerKeysFresh(p: Problem, ls: seq<Planner>, j: nat)
    requires j < |ls| && forall a, b :: 0 <= a < b < |ls| ==> ls[a] != ls[b]
    ensures PairLabel(p, ls[j]) !in PlannerKeys(p, ls[..j])
  {
    PlannerKeysPair(p, ls[..j]);
    assert ls[j] !in ls[..j];
  }

  /** The summary keys of one problem pair it with one of the planners. */
  lemma {:induction false} PlannerKeysPair(p: Problem, ls: seq<Planner>)
    ensures forall x :: x in PlannerKeys(p, ls) ==> x.PairLabel? && x.pairProblem == p && x.pairPlanner in ls
  {
    if ls != [] {
      var n := |ls| - 1;
      PlannerKeysPair(p, ls[..n]);
    }
  }

  /** Every summary key of a list of problems pairs one of them. */
  lemma {:induction false} SummaryKeysFresh(ps: seq<Problem>, ls: seq<Planner>, p: Problem)
    requires p !in ps
    ensures forall j :: 0 <= j < |ls| ==> PairLabel(p, ls[j]) !in SummaryKeys(ps, ls)
  {
    if ps != [] {
      var n := |ps| - 1;
      SummaryKeysFresh(ps[..n], ls, p);
      PlannerKeysPair(ps[n], ls);
      assert ps[n] != p;
    }
  }

  /** Distinct compiled-problem labels: the i-th problem is none of the
      earlier ones. */
  lemma ProblemFresh(rows: seq<Row<Label>>, i: nat)
    requires i < |rows| && forall k :: 0 <= k < |rows| ==> rows[k].name.ProblemLabel?
    requires DistinctLabels(rows)
    ensures ProblemsOf(rows)[i] !in ProblemsOf(rows)[..i]
    ensures ProblemLabel(ProblemsOf(rows)[i]) !in Names(rows)[..i]
  {
    forall k | 0 <= k < i
      ensures ProblemsOf(rows)[k] != ProblemsOf(rows)[i]
      ensures Names(rows)[k] != ProblemLabel(ProblemsOf(rows)[i])
    {
      assert rows[k].name != rows[i].name;
    }
  }

  lemma PlannersDistinct(rows: seq<Row<Label>>)
    requires forall k :: 0 <= k < |rows| ==> rows[k].name.PlannerLabel?
    requires DistinctLabels(rows)
    ensures forall a, b :: 0 <= a < b < |rows| ==> PlannersOf(rows)[a] != PlannersOf(rows)[b]
  {
    forall a, b | 0 <= a < b < |rows|
      ensures PlannersOf(rows)[a] != PlannersOf(rows)[b]
    {
      assert rows[a].name != rows[b].name;
    }
  }

  lemma BestGridSnoc(ps: seq<Problem>, ls: seq<Planner>, rows: seq<Row<Label>>, vals: seq<seq<Value>>, i: nat)
    requires |rows| == |vals| && Rectangular(vals, ResultsWidth) && i < |ps|
    ensures BestGrid(ps[..i + 1], ls, rows, vals) == BestGrid(ps[..i], ls, rows, vals) + [BestValues(ps[i], ls, rows, vals)]
  {
    Sequences.TakeOneMore(ps, i);
  }

  lemma SummaryValuesConform(p: Problem, l: Planner, rows: seq<Row<Label>>, vals: seq<seq<Value>>, sqrt: real -> real)
    requires |rows| == |vals| && Rectangular(vals, ResultsWidth)
    ensures |SummaryValues(p, l, rows, vals, sqrt)| == |SummarySchema|
    ensures forall k :: 0 <= k < |SummarySchema| ==> Conforms(SummaryValues(p, l, rows, vals, sqrt)[k], SummarySchema[k].valueType)
  {
    var visited := MetricValues(Collected(rows, vals, p.name, l.name, Visited), sqrt);
    var generated := MetricValues(Collected(rows, vals, p.name, l.name, Generated), sqrt);
    var time := MetricValues(Collected(rows, vals, p.name, l.name, Time), sqrt);
    MetricValuesConform(Collected(rows, vals, p.name, l.name, Visited), sqrt);
    MetricValuesConform(Collected(rows, vals, p.name, l.name, Generated), sqrt);
    MetricValuesConform(Collected(rows, vals, p.name, l.name, Time), sqrt);
    MetricRowConform([Str(p.name), Str(l.name)], visited, generated, time);
  }

  /** The min and max cells are longs and the avg and std cells doubles. */
  predicate MetricShape(cells: seq<Value>) {
    && |cells| == 4
    && Conforms(cells[0], LongType) && Conforms(cells[1], LongType)
    && Conforms(cells[2], DoubleType) && Conforms(cells[3], DoubleType)
  }

  lemma MetricValuesConform(xs: seq<int>, sqrt: real -> real)
    ensures MetricShape(MetricValues(xs, sqrt))
  {
  }

  lemma MetricRowConform(names: seq<Value>, visited: seq<Value>, generated: seq<Value>, time: seq<Value>)
    requires |names| == 2 && names[0].Str? && names[1].Str?
    requires MetricShape(visited) && MetricShape(generated) && MetricShape(time)
    ensures |names + visited + generated + time| == |SummarySchema|
    ensures forall k :: 0 <= k < |SummarySchema| ==> Conforms((names + visited + generated + time)[k], SummarySchema[k].valueType)
  {
  }

  lemma BestValuesConform(p: Problem, ls: seq<Planner>, bestVisited: Option<(nat, real)>, bestGenerated: Option<(nat, real)>, bestTime: Option<(nat, real)>)
    requires bestVisited.Some? ==> bestVisited.value.0 < |ls|
    requires bestGenerated.Some? ==> bestGenerated.value.0 < |ls|
    requires bestTime.Some? ==> bestTime.value.0 < |ls|
    ensures |[Str(p.name)] + Choice(ls, bestVisited) + Choice(ls, bestGenerated) + Choice(ls, bestTime)| == |BestSchema|
    ensures forall k :: 0 <= k < |BestSchema| ==>
      Conforms(([Str(p.name)] + Choice(ls, bestVisited) + Choice(ls, bestGenerated) + Choice(ls, bestTime))[k], BestSchema[k].valueType)
  {
  }
}
