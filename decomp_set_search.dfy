/**
 * The greedy search of find_decomp_set.py (its top-level loop): starting from
 * the initial decomposition set, each of at most 32 steps evaluates the set
 * on its own staged CNF, estimates the cost of solving every sub-instance as
 * `average runtime * 2^|set|`, and drops the set's last variable; the search
 * stops at the first estimate that does not improve on the best one.
 */
module DecompSetSearch {
  import opened Wrappers
  import opened Failures
  import opened Bits
  import opened Evaluation

  /** The number of steps of the search. */
  const Steps := 32

  /**
   * What the search runs against: the name of the initial CNF, the file
   * system, the random sample drawn at each step, and the solver.
   */
  datatype Config = Config(baseName: string, fs: map<string, seq<string>>,
                           samples: seq<seq<string>>, oracle: seq<string> -> Outcome)

  /** The set at step `i`: `initial` with its last `i` variables dropped (`[]` once it is exhausted). */
  function Shrunk(initial: seq<nat>, i: nat): (d: seq<nat>)
    ensures d <= initial
    ensures i <= |initial| ==> |d| == |initial| - i
  {
    if i <= |initial| then initial[..|initial| - i] else []
  }

  /** Dropping the last variable of the step-`i` set (`dec_set[:-1]`) gives the step-`i + 1` set. */
  lemma ShrunkStep(initial: seq<nat>, i: nat)
    ensures var d := Shrunk(initial, i);
      Shrunk(initial, i + 1) == if |d| > 0 then d[..|d| - 1] else []
  {
  }

  /** At every step, a sample of at least three bit strings, each one bit per variable of that step's set. */
  predicate SamplesFit(cfg: Config, initial: seq<nat>) {
    |cfg.samples| >= Steps &&
    forall i :: 0 <= i < Steps ==>
      |cfg.samples[i]| >= 3 &&
      forall k :: 0 <= k < |cfg.samples[i]| ==> |cfg.samples[i][k]| == |Shrunk(initial, i)|
  }

  /** An average runtime scaled to all `2^setSize` sub-instances; a positive average only grows. */
  function Scaled(avg: real, setSize: nat): (r: real)
    ensures avg > 0.0 ==> r >= avg > 0.0
  {
    var p := Pow2(setSize) as real;
    assert p >= 1.0;
    assert avg > 0.0 ==> avg * p >= avg;
    avg * p
  }

  /** The estimate of step `i`: its average runtime times `2^|set|`, which must be positive. */
  function Estimate(cfg: Config, initial: seq<nat>, i: nat): (r: Result<real, Failure>)
    requires SamplesFit(cfg, initial) && i < Steps
    ensures r.Ok? ==> r.value > 0.0
  {
    var d := Shrunk(initial, i);
    match Evaluate(cfg.baseName, d, i, cfg.fs, cfg.samples[i], cfg.oracle)
    case Err(e) => Err(e)
    case Ok(avg) =>
      if avg > 0.0 then Ok(Scaled(avg, |d|))
      else Err(NonPositiveAverage)
  }

  /** The estimate of a step whose average is positive. */
  lemma EstimateOfAverage(cfg: Config, initial: seq<nat>, i: nat, avg: real)
    requires SamplesFit(cfg, initial) && i < Steps
    requires Evaluate(cfg.baseName, Shrunk(initial, i), i, cfg.fs, cfg.samples[i], cfg.oracle) == Ok(avg)
    requires avg > 0.0
    ensures Estimate(cfg, initial, i) == Ok(Scaled(avg, |Shrunk(initial, i)|))
  {
  }

  /** Against a set one variable larger, a positive average improves the scaled estimate exactly when it is below double. */
  lemma ScaledHalving(prev: real, next: real, s: nat)
    requires prev > 0.0 && next > 0.0
    ensures Scaled(next, s) < Scaled(prev, s + 1) <==> next < 2.0 * prev
  {
    var p := Pow2(s) as real;
    assert p >= 1.0;
    assert Scaled(next, s) == next * p;
    assert Scaled(prev, s + 1) == (2.0 * prev) * p;
    if next < 2.0 * prev {
      assert next * p < (2.0 * prev) * p;
    } else {
      assert next * p >= (2.0 * prev) * p;
    }
  }

  /**
   * What the comparison of consecutive estimates means: dropping a variable
   * halves `2^|set|`, so step `i + 1` improves on step `i` exactly when its
   * average runtime is below twice the average of step `i`.
   */
  lemma ImprovesExactlyBelowDouble(cfg: Config, initial: seq<nat>, i: nat, prev: real, next: real)
    requires SamplesFit(cfg, initial) && i + 1 < Steps && i + 1 <= |initial|
    requires Evaluate(cfg.baseName, Shrunk(initial, i), i, cfg.fs, cfg.samples[i], cfg.oracle) == Ok(prev)
    requires Evaluate(cfg.baseName, Shrunk(initial, i + 1), i + 1, cfg.fs, cfg.samples[i + 1], cfg.oracle) == Ok(next)
    requires prev > 0.0 && next > 0.0
    ensures Estimate(cfg, initial, i).Ok? && Estimate(cfg, initial, i + 1).Ok?
    ensures Estimate(cfg, initial, i + 1).value < Estimate(cfg, initial, i).value <==> next < 2.0 * prev
  {
    EstimateOfAverage(cfg, initial, i, prev);
    EstimateOfAverage(cfg, initial, i + 1, next);
    assert |Shrunk(initial, i)| == |Shrunk(initial, i + 1)| + 1;
    ScaledHalving(prev, next, |Shrunk(initial, i + 1)|);
  }

  /** The estimates of all steps, in step order. */
  function Estimates(cfg: Config, initial: seq<nat>): (es: seq<Result<real, Failure>>)
    requires SamplesFit(cfg, initial)
    ensures |es| == Steps
  {
    seq(Steps, i requires 0 <= i < Steps => Estimate(cfg, initial, i))
  }

  // ---------------------------------------------------------------------------
  // What the search delivers, over the sequence `es` of per-step estimates
  // ---------------------------------------------------------------------------

  /** Steps 0 to `k` all succeed, each estimate strictly below the one before. */
  predicate ImprovingUpTo(es: seq<Result<real, Failure>>, k: nat)
    requires k < |es|
  {
    (forall j :: 0 <= j <= k ==> es[j].Ok?) &&
    forall j :: 0 < j <= k ==> es[j].value < es[j - 1].value
  }

  /**
   * The search stopped after step `k`: the steps up to `k` improved, and
   * either `k` was the last step or step `k + 1` did not improve.
   */
  predicate StopsAfter(es: seq<Result<real, Failure>>, k: nat) {
    k < |es| && ImprovingUpTo(es, k) &&
    (k == |es| - 1 || (es[k + 1].Ok? && es[k + 1].value >= es[k].value))
  }

  /** The step `k` failed after the steps before it had improved. */
  predicate FailsAt(es: seq<Result<real, Failure>>, k: nat) {
    k < |es| && (k == 0 || ImprovingUpTo(es, k - 1)) && es[k].Err?
  }

  /** Along an improving run, the estimate of step `k` is the least of all so far. */
  lemma {:induction false} ImprovingRunMinimum(es: seq<Result<real, Failure>>, k: nat, j: nat)
    requires k < |es| && ImprovingUpTo(es, k) && j <= k
    ensures es[k].value <= es[j].value
    decreases k
  {
    if j < k {
      assert ImprovingUpTo(es, k - 1);
      ImprovingRunMinimum(es, k - 1, j);
    }
  }

  /**
   * The best estimate is the least of every estimate the search computed:
   * those of steps 0 to `k` and that of step `k + 1`, which made it stop.
   */
  lemma BestIsMinimum(es: seq<Result<real, Failure>>, k: nat)
    requires StopsAfter(es, k)
    ensures forall j :: 0 <= j <= k + 1 && j < |es| ==> es[j].Ok? && es[k].value <= es[j].value
  {
    forall j | 0 <= j <= k + 1 && j < |es|
      ensures es[j].Ok? && es[k].value <= es[j].value
    {
      if j <= k {
        ImprovingRunMinimum(es, k, j);
      }
    }
  }

  /** A successful step that improves on an improving run extends it. */
  lemma ExtendImproving(es: seq<Result<real, Failure>>, i: nat)
    requires i < |es| && es[i].Ok?
    requires i > 0 ==> ImprovingUpTo(es, i - 1) && es[i].value < es[i - 1].value
    ensures ImprovingUpTo(es, i)
  {
    forall j | 0 <= j <= i
      ensures es[j].Ok?
    {
      if j < i {
        assert 0 <= j <= i - 1;
      }
    }
    forall j | 0 < j <= i
      ensures es[j].value < es[j - 1].value
    {
      if j < i {
        assert 0 < j <= i - 1;
      }
    }
  }

  /** At most one step is the one after which the search stops. */
  lemma StopIsUnique(es: seq<Result<real, Failure>>, k1: nat, k2: nat)
    requires StopsAfter(es, k1) && StopsAfter(es, k2)
    ensures k1 == k2
  {
  }

  /** A search does not both stop and fail. */
  lemma StopExcludesFailure(es: seq<Result<real, Failure>>, k1: nat, k2: nat)
    requires StopsAfter(es, k1)
    ensures !FailsAt(es, k2)
  {
  }

  // ---------------------------------------------------------------------------
  // The search
  // ---------------------------------------------------------------------------

  /**
   * The top-level loop of find_decomp_set.py. On success it returns the
   * estimate and the set of the step `k` after which the search stopped:
   * every step up to `k` improved on the one before, and step `k + 1` (if
   * any) did not. On failure it returns the failure of the first step that
   * failed, every step before it having improved.
   */
  method FindDecompSet(cfg: Config, initial: seq<nat>) returns (r: Result<(real, seq<nat>), Failure>)
    requires SamplesFit(cfg, initial)
    ensures r.Ok? ==> exists k: nat :: (StopsAfter(Estimates(cfg, initial), k) &&
      r.value == (Estimates(cfg, initial)[k].value, Shrunk(initial, k)))
    ensures r.Err? ==> exists k: nat :: (FailsAt(Estimates(cfg, initial), k) &&
      r.error == Estimates(cfg, initial)[k].error)
  {
    ghost var es := Estimates(cfg, initial);
    var bestEstim: real := -1.0;
    var bestSet: seq<nat> := [];
    var decSet := initial;
    var i := 0;
    while i < Steps
      invariant 0 <= i <= Steps
      invariant decSet == Shrunk(initial, i)
      invariant i == 0 ==> bestEstim < 0.0
      invariant i > 0 ==> ImprovingUpTo(es, i - 1) && bestEstim == es[i - 1].value && bestSet == Shrunk(initial, i - 1)
    {
      var step := StepEstimate(cfg, initial, i, decSet);
      assert step == es[i];
      if step.Err? {
        assert FailsAt(es, i);
        return Err(step.error);
      }
      var estim := step.value;
      if bestEstim < 0.0 || estim < bestEstim {
        ExtendImproving(es, i);
        bestEstim := estim;
        bestSet := decSet;
      } else {
        assert StopsAfter(es, i - 1);
        return Ok((bestEstim, bestSet));
      }
      ShrunkStep(initial, i);
      decSet := if |decSet| > 0 then decSet[..|decSet| - 1] else [];
      i := i + 1;
    }
    assert StopsAfter(es, Steps - 1);
    return Ok((bestEstim, bestSet));
  }

  /**
   * One step of the loop: evaluates the step's set on its staged CNF, checks
   * the average runtime is positive and scales it by `2^|set|`.
   */
  method StepEstimate(cfg: Config, initial: seq<nat>, i: nat, decSet: seq<nat>) returns (r: Result<real, Failure>)
    requires SamplesFit(cfg, initial) && i < Steps && decSet == Shrunk(initial, i)
    ensures r == Estimate(cfg, initial, i)
  {
    var avg := ProcessDecompSet(cfg.baseName, decSet, i, cfg.fs, cfg.samples[i], cfg.oracle);
    if avg.Err? {
      return Err(avg.error);
    }
    if avg.value <= 0.0 {
      return Err(NonPositiveAverage);
    }
    EstimateOfAverage(cfg, initial, i, avg.value);
    r := Ok(Scaled(avg.value, |decSet|));
  }
}
