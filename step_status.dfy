/**
 * The step indicator of the progress banner: each of the five steps is classified by the
 * overall percentage using uniform 20-point bands, independently of the step weights.
 */
module StepStatus {
  import opened Progress

  datatype Status = Completed | Active | Pending

  /** `steps.indexOf(key)`: the first position of `key`, or -1. */
  function IndexOfStep(steps: seq<string>, key: string): (i: int)
    ensures -1 <= i < |steps|
    ensures i == -1 <==> key !in steps
    ensures 0 <= i ==> steps[i] == key && key !in steps[..i]
  {
    if steps == [] then -1
    else if steps[0] == key then 0
    else var i := IndexOfStep(steps[1..], key); if i == -1 then -1 else i + 1
  }

  /** The status of the step at position `index` when the overall percentage is `progress`. */
  function StatusAt(index: int, progress: int): Status {
    if progress >= (index + 1) * 20 then Completed
    else if progress >= index * 20 then Active
    else Pending
  }

  /** `getStepStatus(stepKey)`: the band test applied to `getGlobalProgress()` of the stored object. */
  function GetStepStatus(data: map<string, int>, stepKey: string): Status {
    StatusAt(IndexOfStep(QUOTE_STEPS, stepKey), GlobalProgress(data))
  }

  lemma StatusBands(index: int, progress: int)
    ensures StatusAt(index, progress) == Completed <==> progress >= 20 * (index + 1)
    ensures StatusAt(index, progress) == Active <==> 20 * index <= progress < 20 * (index + 1)
    ensures StatusAt(index, progress) == Pending <==> progress < 20 * index
  {
  }

  lemma FirstStepNeverPending(progress: int)
    requires progress >= 0
    ensures StatusAt(0, progress) != Pending
  {
  }

  /** Read in step order the statuses are some completed, at most one active, then pending. */
  lemma StatusesOrdered(i: int, j: int, progress: int)
    requires i < j
    ensures StatusAt(j, progress) == Completed ==> StatusAt(i, progress) == Completed
    ensures StatusAt(i, progress) == Pending ==> StatusAt(j, progress) == Pending
    ensures !(StatusAt(i, progress) == Active && StatusAt(j, progress) == Active)
  {
  }

  /** The declared steps sit at positions 0..4. */
  lemma StepPositions()
    ensures IndexOfStep(QUOTE_STEPS, VEHICLE_DETAILS) == 0
    ensures IndexOfStep(QUOTE_STEPS, DRIVER_DETAILS) == 1
    ensures IndexOfStep(QUOTE_STEPS, COVERAGE_OPTIONS) == 2
    ensures IndexOfStep(QUOTE_STEPS, QUOTE_SUMMARY) == 3
    ensures IndexOfStep(QUOTE_STEPS, DOWNLOAD) == 4
  {
  }

  lemma AllCompleteAt100()
    ensures var data := map[VEHICLE_DETAILS := 100, DRIVER_DETAILS := 100, COVERAGE_OPTIONS := 100,
                            QUOTE_SUMMARY := 100, DOWNLOAD := 100];
            forall k :: k in QUOTE_STEPS ==> GetStepStatus(data, k) == Completed
  {
    AllStepsCompleteIs100();
    StepPositions();
  }

  lemma FreshStoreStatuses()
    ensures GetStepStatus(map[], VEHICLE_DETAILS) == Active
    ensures forall k :: k in QUOTE_STEPS && k != VEHICLE_DETAILS ==> GetStepStatus(map[], k) == Pending
  {
    EmptyStoreIsZero();
    StepPositions();
  }

  /** With only the vehicle step done (25% under the weights) the vehicle band is completed and the driver band active. */
  lemma BandsIgnoreWeights()
    ensures GetStepStatus(map[VEHICLE_DETAILS := 100], VEHICLE_DETAILS) == Completed
    ensures GetStepStatus(map[VEHICLE_DETAILS := 100], DRIVER_DETAILS) == Active
    ensures GetStepStatus(map[VEHICLE_DETAILS := 100], COVERAGE_OPTIONS) == Pending
  {
    VehicleOnlyIs25();
    StepPositions();
  }

  /** A key that is not a step gets position -1 and so reads as completed at any non-negative progress. */
  lemma UnknownStepCompleted(data: map<string, int>, key: string)
    requires key !in QUOTE_STEPS && InRange(data)
    ensures GetStepStatus(data, key) == Completed
  {
    GlobalProgressBounds(data);
  }
}
