/** Consistency of one query's results over repeated runs
    (`validate_retrieval_consistency`). Run k asks the store as it answers at
    that moment, `world(k)`; a run that raises is skipped. The standard
    deviation test `stdev < 0.1` is stated on the sample variance, as
    `variance < 0.01`, which is the same test for a non-negative variance. */
module Consistency {
  import opened Wrappers
  import opened Seqs
  import opened Records
  import Gateway
  import Validation

  /** The bound on the sample variance: a standard deviation below 0.1. */
  const VarianceBound: real := 0.01

  datatype ConsistencyReport =
    | AllRunsFailed
    | Completed(
        consistent: bool,
        numSuccessfulRuns: nat,
        avgResultsPerRun: real,
        similarityVariance: real,
        resultCountConsistent: bool,
        consistencyPercentage: real,
        individualRunResults: seq<nat>)
  {
    /** the 'consistent' entry of the result dictionary */
    predicate IsConsistent() { Completed? && consistent }

    /** the 'num_successful_runs' entry */
    function SuccessfulRunCount(): nat { if AllRunsFailed? then 0 else numSuccessfulRuns }
  }

  // ---------------------------------------------------------------------------
  // The runs
  // ---------------------------------------------------------------------------

  /** What run k of the check returns: the search against the store as it
      answers then. */
  function RunOutcomes(world: nat -> Gateway.SearchBackend, queryText: string)
    : nat -> Result<seq<QueryResult>, Failure>
  {
    (k: nat) => Gateway.Search(world(k), queryText, Gateway.MaxResults)
  }

  /** The result lists of the runs among the first k that did not raise, in
      run order. */
  function SuccessfulRunsUpTo(outcome: nat -> Result<seq<QueryResult>, Failure>, k: nat)
    : (runs: seq<seq<QueryResult>>)
    ensures |runs| <= k
  {
    if k == 0 then []
    else
      var earlier := SuccessfulRunsUpTo(outcome, k - 1);
      match outcome(k - 1)
      case Success(results) => earlier + [results]
      case Failure(_) => earlier
  }

  lemma SuccessfulRunsStep(outcome: nat -> Result<seq<QueryResult>, Failure>, k: nat)
    ensures SuccessfulRunsUpTo(outcome, k + 1) ==
      SuccessfulRunsUpTo(outcome, k) + (if outcome(k).Success? then [outcome(k).value] else [])
  {
  }

  /** `range(num_runs)` is empty for a negative count. */
  function RunCount(numRuns: int): nat
  {
    if numRuns < 0 then 0 else numRuns
  }

  /** When every run raises, no run is recorded. */
  lemma {:induction false} AllRunsRaise(outcome: nat -> Result<seq<QueryResult>, Failure>, k: nat)
    requires forall j :: 0 <= j < k ==> outcome(j).Failure?
    ensures SuccessfulRunsUpTo(outcome, k) == []
  {
    if k > 0 {
      AllRunsRaise(outcome, k - 1);
    }
  }

  /** When no run raises, every run is recorded, run j at position j. */
  lemma {:induction false} NoRunRaises(outcome: nat -> Result<seq<QueryResult>, Failure>, k: nat)
    requires forall j :: 0 <= j < k ==> outcome(j).Success?
    ensures |SuccessfulRunsUpTo(outcome, k)| == k
    ensures forall j :: 0 <= j < k ==> SuccessfulRunsUpTo(outcome, k)[j] == outcome(j).value
  {
    if k > 0 {
      NoRunRaises(outcome, k - 1);
    }
  }

  // ---------------------------------------------------------------------------
  // Pooled similarity scores and their sample variance
  // ---------------------------------------------------------------------------

  /** `similarity_scores.extend(...)` over the recorded runs. */
  function PooledScores(runs: seq<seq<QueryResult>>): (scores: seq<real>)
  {
    if runs == [] then [] else Validation.Scores(runs[0]) + PooledScores(runs[1..])
  }

  lemma {:induction false} PooledScoresSnoc(runs: seq<seq<QueryResult>>, results: seq<QueryResult>)
    ensures PooledScores(runs + [results]) == PooledScores(runs) + Validation.Scores(results)
  {
    if runs == [] {
      assert runs + [results] == [results];
      assert [results][1..] == [];
    } else {
      assert (runs + [results])[1..] == runs[1..] + [results];
      PooledScoresSnoc(runs[1..], results);
    }
  }

  function Mean(s: seq<real>): real
    requires s != []
  {
    Sum(s) / |s| as real
  }

  function SquaredDeviations(s: seq<real>, m: real): (d: seq<real>)
    ensures |d| == |s|
  {
    if s == [] then [] else [(s[0] - m) * (s[0] - m)] + SquaredDeviations(s[1..], m)
  }

  /** The square of `statistics.stdev`: the sample variance, 0 for at most one score. */
  function SampleVariance(s: seq<real>): real
  {
    if |s| <= 1 then 0.0 else Sum(SquaredDeviations(s, Mean(s))) / (|s| - 1) as real
  }

  lemma {:induction false} SquaredDeviationsNonNegative(s: seq<real>, m: real)
    ensures Sum(SquaredDeviations(s, m)) >= 0.0
  {
    if s != [] {
      SquaredDeviationsNonNegative(s[1..], m);
      assert (s[0] - m) * (s[0] - m) >= 0.0;
    }
  }

  /** The variance is never negative, so `stdev < 0.1` and `variance < 0.01` agree. */
  lemma VarianceNonNegative(s: seq<real>)
    ensures SampleVariance(s) >= 0.0
  {
    if |s| > 1 {
      SquaredDeviationsNonNegative(s, Mean(s));
    }
  }

  lemma {:induction false} SumOfConstant(s: seq<real>, c: real)
    requires forall i :: 0 <= i < |s| ==> s[i] == c
    ensures Sum(s) == |s| as real * c
  {
    if s != [] {
      SumOfConstant(s[1..], c);
    }
  }

  lemma {:induction false} DeviationsFromConstant(s: seq<real>, c: real)
    requires forall i :: 0 <= i < |s| ==> s[i] == c
    ensures Sum(SquaredDeviations(s, c)) == 0.0
  {
    if s != [] {
      DeviationsFromConstant(s[1..], c);
    }
  }

  /** Identical scores have variance 0, so they never break consistency. */
  lemma ConstantScoresZeroVariance(s: seq<real>, c: real)
    requires forall i :: 0 <= i < |s| ==> s[i] == c
    ensures SampleVariance(s) == 0.0
  {
    if |s| > 1 {
      SumOfConstant(s, c);
      assert Mean(s) == c;
      DeviationsFromConstant(s, c);
    }
  }

  // ---------------------------------------------------------------------------
  // Analysis
  // ---------------------------------------------------------------------------

  /** `[len(results) for results in results_list]` */
  function RunSizes(runs: seq<seq<QueryResult>>): (sizes: seq<nat>)
    ensures |sizes| == |runs|
    ensures forall i :: 0 <= i < |runs| ==> sizes[i] == |runs[i]|
  {
    seq(|runs|, i requires 0 <= i < |runs| => |runs[i]|)
  }

  /** The pooled scores number exactly the results of all runs together: the
      per-run counts add up to the length of the pooled scores. */
  lemma {:induction false} PooledScoresCount(runs: seq<seq<QueryResult>>)
    ensures |PooledScores(runs)| as real == Sum(AsReals(RunSizes(runs)))
  {
    if runs != [] {
      var sizes := AsReals(RunSizes(runs));
      PooledScoresCount(runs[1..]);
      assert sizes[1..] == AsReals(RunSizes(runs[1..]));
      assert sizes[0] == |Validation.Scores(runs[0])| as real;
    }
  }

  function AsReals(ns: seq<nat>): (rs: seq<real>)
    ensures |rs| == |ns|
    ensures forall i :: 0 <= i < |ns| ==> rs[i] == ns[i] as real
  {
    seq(|ns|, i requires 0 <= i < |ns| => ns[i] as real)
  }

  /** every count equals the first */
  predicate SameSizes(sizes: seq<nat>)
  {
    forall i :: 0 <= i < |sizes| ==> sizes[i] == sizes[0]
  }

  /** `{r.id for r in results}` */
  function Ids(results: seq<QueryResult>): set<string>
  {
    set i | 0 <= i < |results| :: results[i].id
  }

  /** The ids the first run shares with each later run, summed. */
  function SharedIds(firstIds: set<string>, later: seq<seq<QueryResult>>): (n: nat)
    ensures n <= |later| * |firstIds|
  {
    if later == [] then 0
    else
      var shared := firstIds * Ids(later[0]);
      assert shared <= firstIds;
      SubsetCardinality(shared, firstIds);
      |shared| + SharedIds(firstIds, later[1..])
  }

  lemma {:induction false} SubsetCardinality(a: set<string>, b: set<string>)
    requires a <= b
    ensures |a| <= |b|
  {
    if a != {} {
      var x :| x in a;
      SubsetCardinality(a - {x}, b - {x});
    }
  }

  lemma QuotientBound(total: real, count: real, bound: real)
    requires count > 0.0 && 0.0 <= total <= count * bound
    ensures 0.0 <= total / count <= bound
  {
    assert total / count * count == total;
  }

  /** `consistency_percentage`: the average number of first-run ids found
      again in each later run (a count, not a fraction), or 0 with a single run. */
  function ConsistencyPercentage(runs: seq<seq<QueryResult>>): (p: real)
    ensures 0.0 <= p
    ensures |runs| <= 1 ==> p == 0.0
    ensures |runs| > 1 ==> p <= |Ids(runs[0])| as real
  {
    if |runs| > 1 then
      var total := SharedIds(Ids(runs[0]), runs[1..]);
      QuotientBound(total as real, (|runs| - 1) as real, |Ids(runs[0])| as real);
      total as real / (|runs| - 1) as real
    else 0.0
  }

  /** The analysis once the runs are done, from the recorded result lists and
      the pooled scores. */
  function Analyze(runs: seq<seq<QueryResult>>, scores: seq<real>): (report: ConsistencyReport)
    ensures runs == [] <==> report == AllRunsFailed
    ensures runs != [] ==>
      && report.numSuccessfulRuns == |runs|
      && report.individualRunResults == RunSizes(runs)
      && report.avgResultsPerRun == Mean(AsReals(RunSizes(runs)))
      && report.similarityVariance == SampleVariance(scores)
      && (report.resultCountConsistent <==> SameSizes(RunSizes(runs)))
      && report.consistencyPercentage == ConsistencyPercentage(runs)
      && (report.consistent <==> SameSizes(RunSizes(runs)) && SampleVariance(scores) < VarianceBound)
  {
    if runs == [] then AllRunsFailed
    else
      var sizes := RunSizes(runs);
      var variance := SampleVariance(scores);
      var sameSizes := SameSizes(sizes);
      Completed(sameSizes && variance < VarianceBound, |runs|, Mean(AsReals(sizes)),
                variance, sameSizes, ConsistencyPercentage(runs), sizes)
  }

  /** `validate_retrieval_consistency` */
  method ValidateRetrievalConsistency(world: nat -> Gateway.SearchBackend, queryText: string, numRuns: int)
    returns (report: ConsistencyReport)
    ensures var runs := SuccessfulRunsUpTo(RunOutcomes(world, queryText), RunCount(numRuns));
      report == Analyze(runs, PooledScores(runs))
  {
    var resultsList: seq<seq<QueryResult>> := [];
    var similarityScores: seq<real> := [];
    var i := 0;
    while i < numRuns
      invariant 0 <= i <= RunCount(numRuns)
      invariant resultsList == SuccessfulRunsUpTo(RunOutcomes(world, queryText), i)
      invariant similarityScores == PooledScores(resultsList)
    {
      var outcome := Gateway.RunSimilaritySearch(world(i), queryText, Gateway.MaxResults);
      assert outcome == RunOutcomes(world, queryText)(i);
      SuccessfulRunsStep(RunOutcomes(world, queryText), i);
      if outcome.Success? {
        PooledScoresSnoc(resultsList, outcome.value);
        resultsList := resultsList + [outcome.value];
        similarityScores := similarityScores + Validation.Scores(outcome.value);
      }
      i := i + 1;
    }
    assert i == RunCount(numRuns);
    report := Analyze(resultsList, similarityScores);
  }

  /** If every run raises, the check reports inconsistency with no successful run. */
  lemma AllFailedIsInconsistent(outcome: nat -> Result<seq<QueryResult>, Failure>, numRuns: nat)
    requires forall j :: 0 <= j < numRuns ==> outcome(j).Failure?
    ensures var runs := SuccessfulRunsUpTo(outcome, numRuns);
      var report := Analyze(runs, PooledScores(runs));
      report == AllRunsFailed && !report.IsConsistent() && report.SuccessfulRunCount() == 0
  {
    AllRunsRaise(outcome, numRuns);
  }

  /** Runs that all return the same non-empty list agree perfectly: the counts
      match, and with several runs every first-run id is found again. */
  lemma {:induction false} IdenticalRunsOverlapFully(results: seq<QueryResult>, later: seq<seq<QueryResult>>)
    requires forall k :: 0 <= k < |later| ==> later[k] == results
    ensures SharedIds(Ids(results), later) == |later| * |Ids(results)|
  {
    if later != [] {
      IdenticalRunsOverlapFully(results, later[1..]);
      assert Ids(results) * Ids(later[0]) == Ids(results);
    }
  }

  /** Repeating the same answer every run is count-consistent, and its
      percentage is the number of distinct ids of that answer. */
  lemma IdenticalRunsAreCountConsistent(results: seq<QueryResult>, n: nat)
    requires n >= 2
    ensures var runs := seq(n, _ => results);
      var report := Analyze(runs, PooledScores(runs));
      && report.resultCountConsistent
      && report.consistencyPercentage == |Ids(results)| as real
  {
    var runs := seq(n, _ => results);
    IdenticalRunsOverlapFully(results, runs[1..]);
  }

  /** Run sizes 5, 3, 5 are not count-consistent, whatever the scores. */
  lemma UnevenRunsInconsistent(a: seq<QueryResult>, b: seq<QueryResult>, c: seq<QueryResult>, scores: seq<real>)
    requires |a| == 5 && |b| == 3 && |c| == 5
    ensures !Analyze([a, b, c], scores).IsConsistent()
  {
    assert RunSizes([a, b, c])[1] != RunSizes([a, b, c])[0];
  }
}
