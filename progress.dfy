/**
 * The quote progress store: a map from step key to a completion value in 0..100,
 * held under the 'quoteProgress' key, and the weighted overall percentage derived from it.
 */
module Progress {
  import opened Numeric

  const VEHICLE_DETAILS: string := "vehicle_details"
  const DRIVER_DETAILS: string := "driver_details"
  const COVERAGE_OPTIONS: string := "coverage_options"
  const QUOTE_SUMMARY: string := "quote_summary"
  const DOWNLOAD: string := "download"

  /** The step keys in declaration order (`Object.values(QUOTE_STEPS)`, also the key order of `STEP_WEIGHTS`). */
  const QUOTE_STEPS: seq<string> := [VEHICLE_DETAILS, DRIVER_DETAILS, COVERAGE_OPTIONS, QUOTE_SUMMARY, DOWNLOAD]

  const STEP_WEIGHTS: map<string, int> :=
    map[VEHICLE_DETAILS := 25, DRIVER_DETAILS := 25, COVERAGE_OPTIONS := 25, QUOTE_SUMMARY := 15, DOWNLOAD := 10]

  function Weight(step: string): int {
    if step in STEP_WEIGHTS then STEP_WEIGHTS[step] else 0
  }

  /** `progressData[step] || 0`: the stored value, or 0 for a step never written. */
  function StoredOrZero(data: map<string, int>, step: string): int {
    if step in data then data[step] else 0
  }

  /** The running total of the loop in `getGlobalProgress` after visiting `steps` in order. */
  function WeightedTotal(data: map<string, int>, steps: seq<string>): real
    decreases |steps|
  {
    if steps == [] then 0.0
    else
      var step := steps[|steps| - 1];
      WeightedTotal(data, steps[..|steps| - 1]) + (StoredOrZero(data, step) * Weight(step)) as real / 100.0
  }

  /** `getGlobalProgress()` on the stored object `data`. */
  function GlobalProgress(data: map<string, int>): int {
    Min(100, Round(WeightedTotal(data, QUOTE_STEPS)))
  }

  /** Every stored value lies in 0..100, as `updateStepProgress` writes them. */
  ghost predicate InRange(data: map<string, int>) {
    forall s :: s in data ==> 0 <= data[s] <= 100
  }

  /** The integer weighted sum: each step's stored value times its weight. */
  function WeightedSum(data: map<string, int>): int {
    StoredOrZero(data, VEHICLE_DETAILS) * 25 + StoredOrZero(data, DRIVER_DETAILS) * 25
    + StoredOrZero(data, COVERAGE_OPTIONS) * 25 + StoredOrZero(data, QUOTE_SUMMARY) * 15
    + StoredOrZero(data, DOWNLOAD) * 10
  }

  class ProgressTracker {
    /** The parsed 'quoteProgress' object; a step never written has no key. */
    var progress: map<string, int>

    ghost predicate Valid()
      reads this
    {
      InRange(progress)
    }

    constructor ()
      ensures Valid() && progress == map[]
    {
      progress := map[];
    }

    /** `getStepProgress(step)`. */
    function GetStepProgress(step: string): (p: int)
      reads this
      ensures Valid() ==> 0 <= p <= 100
      ensures step !in progress ==> p == 0
    {
      StoredOrZero(progress, step)
    }

    /** `updateStepProgress(step, value)`: read the object, clamp and write one key, write it back. */
    method UpdateStepProgress(step: string, value: int)
      modifies this
      ensures progress == old(progress)[step := Clamp(value)]
      ensures GetStepProgress(step) == Min(100, Max(0, value))
      ensures forall s :: s != step ==> GetStepProgress(s) == old(GetStepProgress(s))
      ensures old(Valid()) ==> Valid()
    {
      var data := progress;
      data := data[step := Min(100, Max(0, value))];
      progress := data;
    }

    /** `resetProgress()`: the stored object is removed. */
    method ResetProgress()
      modifies this
      ensures progress == map[] && Valid()
      ensures forall s :: GetStepProgress(s) == 0
      ensures GlobalProgress(progress) == 0
    {
      progress := map[];
      GlobalProgressIsRounded(progress);
    }

    /** `getGlobalProgress()`: the weighted loop over the steps, rounded and capped at 100. */
    method GetGlobalProgress() returns (g: int)
      ensures g == GlobalProgress(progress)
      ensures g == Min(100, (WeightedSum(progress) + 50) / 100)
      ensures Valid() ==> 0 <= g <= 100
    {
      var data := progress;
      var total := 0.0;
      var i := 0;
      while i < |QUOTE_STEPS|
        invariant 0 <= i <= |QUOTE_STEPS|
        invariant total == WeightedTotal(data, QUOTE_STEPS[..i])
      {
        var step := QUOTE_STEPS[i];
        assert QUOTE_STEPS[..i + 1][..i] == QUOTE_STEPS[..i];
        total := total + (StoredOrZero(data, step) * Weight(step)) as real / 100.0;
        i := i + 1;
      }
      assert QUOTE_STEPS[..i] == QUOTE_STEPS;
      g := Min(100, Round(total));
      GlobalProgressIsRounded(data);
      if Valid() {
        GlobalProgressBounds(data);
      }
    }
  }

  lemma StepWeightsSumTo100()
    ensures Weight(VEHICLE_DETAILS) + Weight(DRIVER_DETAILS) + Weight(COVERAGE_OPTIONS)
            + Weight(QUOTE_SUMMARY) + Weight(DOWNLOAD) == 100
    ensures forall s :: s in STEP_WEIGHTS <==> s in QUOTE_STEPS
    ensures forall s :: s in STEP_WEIGHTS ==> STEP_WEIGHTS[s] > 0
  {
  }

  /** Rounding a number of hundredths to the nearest integer, as integer division. */
  lemma RoundHundredths(n: int)
    ensures Round(n as real / 100.0) == (n + 50) / 100
  {
    var q, r := (n + 50) / 100, (n + 50) % 100;
    assert n + 50 == 100 * q + r && 0 <= r < 100;
    assert n as real / 100.0 + 0.5 == q as real + r as real / 100.0;
  }

  /** The loop's real-valued total is the integer weighted sum taken in hundredths. */
  lemma WeightedTotalIsSum(data: map<string, int>)
    ensures WeightedTotal(data, QUOTE_STEPS) == WeightedSum(data) as real / 100.0
  {
    var s := QUOTE_STEPS;
    var v, d, c, q, w := StoredOrZero(data, s[0]), StoredOrZero(data, s[1]), StoredOrZero(data, s[2]),
                         StoredOrZero(data, s[3]), StoredOrZero(data, s[4]);
    assert s[..1][..0] == [];
    assert WeightedTotal(data, s[..1]) == (v * 25) as real / 100.0;
    assert s[..2][..1] == s[..1];
    assert WeightedTotal(data, s[..2]) == (v * 25 + d * 25) as real / 100.0;
    assert s[..3][..2] == s[..2];
    assert WeightedTotal(data, s[..3]) == (v * 25 + d * 25 + c * 25) as real / 100.0;
    assert s[..4][..3] == s[..3];
    assert WeightedTotal(data, s[..4]) == (v * 25 + d * 25 + c * 25 + q * 15) as real / 100.0;
    assert s[..5][..4] == s[..4] && s[..5] == s;
  }

  /** `getGlobalProgress` is `min(100, round(Σ p·w / 100))` over the five weighted steps. */
  lemma GlobalProgressIsRounded(data: map<string, int>)
    ensures GlobalProgress(data) == Min(100, (WeightedSum(data) + 50) / 100)
  {
    WeightedTotalIsSum(data);
    RoundHundredths(WeightedSum(data));
  }

  lemma GlobalProgressBounds(data: map<string, int>)
    requires InRange(data)
    ensures 0 <= GlobalProgress(data) <= 100
  {
    GlobalProgressIsRounded(data);
  }

  /** A key outside `STEP_WEIGHTS` does not affect the overall percentage. */
  lemma OtherKeysIgnored(data: map<string, int>, key: string, value: int)
    requires key !in QUOTE_STEPS
    ensures GlobalProgress(data[key := value]) == GlobalProgress(data)
  {
    GlobalProgressIsRounded(data);
    GlobalProgressIsRounded(data[key := value]);
  }

  /** A step never written counts exactly as a step written with 0. */
  lemma UnwrittenStepCountsAsZero(data: map<string, int>, step: string)
    requires step !in data
    ensures GlobalProgress(data) == GlobalProgress(data[step := 0])
  {
    GlobalProgressIsRounded(data);
    GlobalProgressIsRounded(data[step := 0]);
  }

  /** Raising one step's stored value never lowers the overall percentage. */
  lemma GlobalProgressMonotone(data: map<string, int>, step: string, value: int)
    requires value >= StoredOrZero(data, step)
    ensures GlobalProgress(data[step := value]) >= GlobalProgress(data)
  {
    GlobalProgressIsRounded(data);
    GlobalProgressIsRounded(data[step := value]);
    assert WeightedSum(data[step := value]) >= WeightedSum(data);
  }

  lemma EmptyStoreIsZero()
    ensures GlobalProgress(map[]) == 0
  {
    GlobalProgressIsRounded(map[]);
  }

  lemma AllStepsCompleteIs100()
    ensures GlobalProgress(map[VEHICLE_DETAILS := 100, DRIVER_DETAILS := 100, COVERAGE_OPTIONS := 100,
                               QUOTE_SUMMARY := 100, DOWNLOAD := 100]) == 100
  {
    GlobalProgressIsRounded(map[VEHICLE_DETAILS := 100, DRIVER_DETAILS := 100, COVERAGE_OPTIONS := 100,
                                QUOTE_SUMMARY := 100, DOWNLOAD := 100]);
  }

  lemma VehicleOnlyIs25()
    ensures GlobalProgress(map[VEHICLE_DETAILS := 100]) == 25
  {
    GlobalProgressIsRounded(map[VEHICLE_DETAILS := 100]);
  }

  lemma HalfDownloadIs5()
    ensures GlobalProgress(map[DOWNLOAD := 50]) == 5
  {
    GlobalProgressIsRounded(map[DOWNLOAD := 50]);
  }
}
