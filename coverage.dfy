/**
 * Coverage selection and the premium estimate: catalog lookup times a vehicle-type
 * multiplier, an excess adjustment floored at 80% of the running total, a policy-period
 * multiplier, and `Math.round`. Amounts are exact reals.
 */
module Coverage {
  import opened Wrappers
  import opened Numeric
  import Progress
  import Storage

  datatype CoverageOption = CoverageOption(id: string, name: string, basePremium: real, recommended: bool)

  /** The fixed catalog, in display order (descriptions, icons and feature lists are display-only). */
  const COVERAGE_OPTIONS: seq<CoverageOption> := [
    CoverageOption("comprehensive", "Comprehensive Coverage", 15000.0, true),
    CoverageOption("third_party_fire_theft", "Third Party, Fire & Theft", 8000.0, false),
    CoverageOption("third_party_only", "Third Party Only", 5000.0, false),
    CoverageOption("personal_accident", "Personal Accident Cover", 2000.0, false),
    CoverageOption("roadside_assistance", "Roadside Assistance", 1500.0, false)
  ]

  /** `options.find(c => c.id === id)`: the first entry with that id. */
  function FindById(options: seq<CoverageOption>, id: string): (r: Option<CoverageOption>)
    ensures r.Some? ==> r.value in options && r.value.id == id
    ensures r.Some? ==> exists k :: 0 <= k < |options| && options[k] == r.value &&
                          forall j :: 0 <= j < k ==> options[j].id != id
    ensures r.None? ==> forall c :: c in options ==> c.id != id
  {
    if options == [] then None
    else if options[0].id == id then Some(options[0])
    else FindById(options[1..], id)
  }

  /**
   * The multiplier chosen by the `switch` on `vehicleDetails.vehicleType`;
   * `None` stands for no saved vehicle details, which keeps the initial 1.
   */
  function VehicleMultiplier(vehicleType: Option<string>): real {
    match vehicleType
    case None => 1.0
    case Some(t) =>
      if t == "private_car" then 1.0
      else if t == "commercial_vehicle" then 1.3
      else if t == "motorcycle" then 0.8
      else if t == "truck" then 1.5
      else if t == "bus" then 1.8
      else 1.2
  }

  /** Every catalog entry has a non-negative base premium. */
  predicate NonNegativePremiums(catalog: seq<CoverageOption>) {
    forall c :: c in catalog ==> c.basePremium >= 0.0
  }

  /** What one selected id adds to the running total: nothing when it is not in the catalog. */
  function Contribution(catalog: seq<CoverageOption>, id: string, multiplier: real): real {
    match FindById(catalog, id)
    case Some(c) => c.basePremium * multiplier
    case None => 0.0
  }

  /** The running total of the `forEach` over the selected ids, in order. */
  function PreExcessTotal(catalog: seq<CoverageOption>, selected: seq<string>, multiplier: real): real
    decreases |selected|
  {
    if selected == [] then 0.0
    else PreExcessTotal(catalog, selected[..|selected| - 1], multiplier) + Contribution(catalog, selected[|selected| - 1], multiplier)
  }

  function ExcessDiscount(excess: int): real {
    (excess - 5000) as real * 0.01
  }

  /** `Math.max(total - excessDiscount, total * 0.8)`. */
  function ApplyExcess(total: real, excess: int): real {
    MaxReal(total - ExcessDiscount(excess), total * 0.8)
  }

  function PeriodMultiplier(period: string): real {
    if period == "6" then 0.55 else if period == "24" then 1.8 else 1.0
  }

  /** The premium `calculatePremium` sets for the given inputs, looking ids up in `catalog`. */
  function Premium(catalog: seq<CoverageOption>, selected: seq<string>, excess: int, period: string, vehicleType: Option<string>): int {
    Round(ApplyExcess(PreExcessTotal(catalog, selected, VehicleMultiplier(vehicleType)), excess) * PeriodMultiplier(period))
  }

  /** `calculatePremium()`; the page passes its own `COVERAGE_OPTIONS` as `catalog`. */
  method CalculatePremium(catalog: seq<CoverageOption>, selected: seq<string>, excess: int, period: string, vehicleType: Option<string>)
    returns (premium: int)
    ensures premium == Premium(catalog, selected, excess, period, vehicleType)
    ensures NonNegativePremiums(catalog) ==> premium >= 0
  {
    var total := 0.0;
    var multiplier := 1.0;
    if vehicleType.Some? {
      var t := vehicleType.value;
      if t == "private_car" {
        multiplier := 1.0;
      } else if t == "commercial_vehicle" {
        multiplier := 1.3;
      } else if t == "motorcycle" {
        multiplier := 0.8;
      } else if t == "truck" {
        multiplier := 1.5;
      } else if t == "bus" {
        multiplier := 1.8;
      } else {
        multiplier := 1.2;
      }
    }
    var i := 0;
    while i < |selected|
      invariant 0 <= i <= |selected|
      invariant multiplier == VehicleMultiplier(vehicleType)
      invariant total == PreExcessTotal(catalog, selected[..i], multiplier)
    {
      assert selected[..i + 1][..i] == selected[..i];
      ghost var before := total;
      var coverage := FindById(catalog, selected[i]);
      if coverage.Some? {
        total := total + coverage.value.basePremium * multiplier;
      }
      assert total == before + Contribution(catalog, selected[i], multiplier);
      i := i + 1;
    }
    assert selected[..i] == selected;
    var excessDiscount := (excess - 5000) as real * 0.01;
    total := MaxReal(total - excessDiscount, total * 0.8);
    assert total == ApplyExcess(PreExcessTotal(catalog, selected, VehicleMultiplier(vehicleType)), excess);
    var periodMultiplier := if period == "6" then 0.55 else if period == "24" then 1.8 else 1.0;
    assert periodMultiplier == PeriodMultiplier(period);
    total := total * periodMultiplier;
    premium := Round(total);
    if NonNegativePremiums(catalog) {
      PremiumNonNegative(catalog, selected, excess, period, vehicleType);
    }
  }

  /** The page's catalog: every base premium is positive and every id is distinct. */
  lemma CatalogFacts()
    ensures NonNegativePremiums(COVERAGE_OPTIONS)
    ensures forall i, j :: 0 <= i < j < |COVERAGE_OPTIONS| ==> COVERAGE_OPTIONS[i].id != COVERAGE_OPTIONS[j].id
  {
  }

  lemma MultiplierTable(t: string)
    ensures VehicleMultiplier(None) == 1.0
    ensures VehicleMultiplier(Some("private_car")) == 1.0
    ensures VehicleMultiplier(Some("commercial_vehicle")) == 1.3
    ensures VehicleMultiplier(Some("motorcycle")) == 0.8
    ensures VehicleMultiplier(Some("truck")) == 1.5
    ensures VehicleMultiplier(Some("bus")) == 1.8
    ensures t !in {"private_car", "commercial_vehicle", "motorcycle", "truck", "bus"} ==> VehicleMultiplier(Some(t)) == 1.2
    ensures VehicleMultiplier(Some(t)) > 0.0
  {
  }

  lemma {:induction false} PreExcessTotalAppend(catalog: seq<CoverageOption>, a: seq<string>, b: seq<string>, multiplier: real)
    ensures PreExcessTotal(catalog, a + b, multiplier)
            == PreExcessTotal(catalog, a, multiplier) + PreExcessTotal(catalog, b, multiplier)
    decreases |b|
  {
    if b == [] {
      assert a + b == a;
    } else {
      var b' := b[..|b| - 1];
      assert (a + b)[..|a + b| - 1] == a + b';
      PreExcessTotalAppend(catalog, a, b', multiplier);
    }
  }

  /** An id that is not in the catalog adds nothing, wherever it appears in the selection. */
  lemma UnknownIdAddsNothing(catalog: seq<CoverageOption>, a: seq<string>, id: string, b: seq<string>, multiplier: real)
    requires forall c :: c in catalog ==> c.id != id
    ensures PreExcessTotal(catalog, a + [id] + b, multiplier) == PreExcessTotal(catalog, a + b, multiplier)
  {
    PreExcessTotalAppend(catalog, a + [id], b, multiplier);
    PreExcessTotalAppend(catalog, a, [id], multiplier);
    PreExcessTotalAppend(catalog, a, b, multiplier);
    assert [id][..0] == [];
  }

  lemma {:induction false} PreExcessTotalNonNegative(catalog: seq<CoverageOption>, selected: seq<string>, multiplier: real)
    requires NonNegativePremiums(catalog) && multiplier >= 0.0
    ensures PreExcessTotal(catalog, selected, multiplier) >= 0.0
    decreases |selected|
  {
    if selected != [] {
      PreExcessTotalNonNegative(catalog, selected[..|selected| - 1], multiplier);
    }
  }

  /** The excess step never goes below 80% of the running total, hence never below 0. */
  lemma ExcessFloor(total: real, excess: int)
    ensures ApplyExcess(total, excess) >= total * 0.8
    ensures total >= 0.0 ==> ApplyExcess(total, excess) >= 0.0
  {
  }

  /** For an excess up to the 5000 baseline the discount branch is always the larger one. */
  lemma LowExcessUsesDiscount(total: real, excess: int)
    requires total >= 0.0 && excess <= 5000
    ensures ApplyExcess(total, excess) == total - ExcessDiscount(excess)
  {
  }

  /** The final premium is never negative. */
  lemma PremiumNonNegative(catalog: seq<CoverageOption>, selected: seq<string>, excess: int, period: string,
                           vehicleType: Option<string>)
    requires NonNegativePremiums(catalog)
    ensures Premium(catalog, selected, excess, period, vehicleType) >= 0
  {
    var m := VehicleMultiplier(vehicleType);
    MultiplierTable("");
    PreExcessTotalNonNegative(catalog, selected, m);
    var t := ApplyExcess(PreExcessTotal(catalog, selected, m), excess);
    assert t >= 0.0;
    RoundNonNegative(t * PeriodMultiplier(period));
  }

  lemma ExcessMonotone(total: real, e1: int, e2: int)
    requires e1 <= e2
    ensures ApplyExcess(total, e2) <= ApplyExcess(total, e1)
  {
  }

  lemma PeriodScalingMonotone(a: real, b: real, period: string)
    requires a <= b
    ensures a * PeriodMultiplier(period) <= b * PeriodMultiplier(period)
  {
    if period == "6" {
    } else if period == "24" {
    } else {
    }
  }

  /** The premium shown by the page is never negative, whatever the inputs. */
  lemma PagePremiumNonNegative(selected: seq<string>, excess: int, period: string, vehicleType: Option<string>)
    ensures Premium(COVERAGE_OPTIONS, selected, excess, period, vehicleType) >= 0
  {
    CatalogFacts();
    PremiumNonNegative(COVERAGE_OPTIONS, selected, excess, period, vehicleType);
  }

  /** With the other inputs fixed, a larger excess never raises the premium. */
  lemma PremiumNonIncreasingInExcess(catalog: seq<CoverageOption>, selected: seq<string>, e1: int, e2: int,
                                     period: string, vehicleType: Option<string>)
    requires e1 <= e2
    ensures Premium(catalog, selected, e2, period, vehicleType) <= Premium(catalog, selected, e1, period, vehicleType)
  {
    var t := PreExcessTotal(catalog, selected, VehicleMultiplier(vehicleType));
    var a2, a1 := ApplyExcess(t, e2), ApplyExcess(t, e1);
    ExcessMonotone(t, e1, e2);
    PeriodScalingMonotone(a2, a1, period);
    RoundMonotone(a2 * PeriodMultiplier(period), a1 * PeriodMultiplier(period));
  }

  /** An empty selection is not free: it costs `round(max(0, (5000 - excess) * 0.01) * periodMultiplier)`. */
  lemma EmptySelectionPremium(catalog: seq<CoverageOption>, excess: int, period: string, vehicleType: Option<string>)
    ensures Premium(catalog, [], excess, period, vehicleType)
            == Round(MaxReal(0.0, (5000 - excess) as real * 0.01) * PeriodMultiplier(period))
  {
  }

  lemma EmptySelectionExamples()
    ensures Premium(COVERAGE_OPTIONS, [], 0, "12", None) == 50
    ensures Premium(COVERAGE_OPTIONS, [], 5000, "12", Some("private_car")) == 0
  {
    EmptySelectionPremium(COVERAGE_OPTIONS, 0, "12", None);
    EmptySelectionPremium(COVERAGE_OPTIONS, 5000, "12", Some("private_car"));
  }

  lemma ComprehensivePrivateCar()
    ensures Premium(COVERAGE_OPTIONS, ["comprehensive"], 5000, "12", Some("private_car")) == 15000
  {
    assert ["comprehensive"][..0] == [];
    assert PreExcessTotal(COVERAGE_OPTIONS, ["comprehensive"], 1.0) == 15000.0;
  }

  /** Roadside assistance is found as the catalog's last entry. */
  lemma RoadsideLookup()
    ensures FindById(COVERAGE_OPTIONS, "roadside_assistance") == Some(COVERAGE_OPTIONS[4])
  {
    var c := COVERAGE_OPTIONS;
    assert c[1..][1..][1..][1..] == [c[4]];
  }

  lemma ComprehensiveAndRoadsideTruck24()
    ensures Premium(COVERAGE_OPTIONS, ["comprehensive", "roadside_assistance"], 5000, "24", Some("truck")) == 44550
  {
    var s := ["comprehensive", "roadside_assistance"];
    var m := VehicleMultiplier(Some("truck"));
    assert m == 1.5;
    RoadsideLookup();
    calc {
      PreExcessTotal(COVERAGE_OPTIONS, s, m);
    == { assert s[..1] == ["comprehensive"] && s[..1][..0] == []; }
      0.0 + Contribution(COVERAGE_OPTIONS, "comprehensive", m) + Contribution(COVERAGE_OPTIONS, "roadside_assistance", m);
    ==
      24750.0;
    }
    assert ApplyExcess(24750.0, 5000) == 24750.0;
    assert PeriodMultiplier("24") == 1.8;
    RoundOfInteger(44550);
  }

  /** `prev.filter(id => id !== coverageId)`. */
  function RemoveAll(s: seq<string>, id: string): (r: seq<string>)
    ensures id !in r
    ensures forall x :: x != id ==> (x in r <==> x in s)
  {
    if s == [] then []
    else if s[0] == id then RemoveAll(s[1..], id)
    else [s[0]] + RemoveAll(s[1..], id)
  }

  /** The state update of `handleCoverageToggle(id)`. */
  function ToggleCoverage(prev: seq<string>, id: string): seq<string> {
    if id in prev then RemoveAll(prev, id) else prev + [id]
  }

  predicate NoDuplicates(s: seq<string>) {
    forall i, j :: 0 <= i < j < |s| ==> s[i] != s[j]
  }

  lemma ToggleFlipsMembership(prev: seq<string>, id: string)
    ensures id in ToggleCoverage(prev, id) <==> id !in prev
    ensures forall x :: x != id ==> (x in ToggleCoverage(prev, id) <==> x in prev)
  {
  }

  lemma {:induction false} RemoveAllAbsent(s: seq<string>, id: string)
    requires id !in s
    ensures RemoveAll(s, id) == s
  {
    if s != [] {
      RemoveAllAbsent(s[1..], id);
    }
  }

  lemma {:induction false} RemoveAllAppend(a: seq<string>, b: seq<string>, id: string)
    ensures RemoveAll(a + b, id) == RemoveAll(a, id) + RemoveAll(b, id)
  {
    if a == [] {
      assert a + b == b;
    } else {
      assert (a + b)[1..] == a[1..] + b;
      RemoveAllAppend(a[1..], b, id);
    }
  }

  /** The ids other than the toggled one keep their relative order. */
  lemma ToggleKeepsOthersInOrder(prev: seq<string>, id: string)
    ensures RemoveAll(ToggleCoverage(prev, id), id) == RemoveAll(prev, id)
  {
    if id in prev {
      RemoveAllAbsent(RemoveAll(prev, id), id);
    } else {
      RemoveAllAppend(prev, [id], id);
      assert RemoveAll([id], id) == [];
    }
  }

  lemma {:induction false} RemoveAllKeepsNoDuplicates(s: seq<string>, id: string)
    requires NoDuplicates(s)
    ensures NoDuplicates(RemoveAll(s, id))
  {
    if s != [] {
      assert NoDuplicates(s[1..]) by {
        forall i, j | 0 <= i < j < |s[1..]| ensures s[1..][i] != s[1..][j] {
          assert s[1..][i] == s[i + 1] && s[1..][j] == s[j + 1];
        }
      }
      RemoveAllKeepsNoDuplicates(s[1..], id);
      if s[0] != id {
        assert s[0] !in s[1..];
        assert s[0] !in RemoveAll(s[1..], id);
      }
    }
  }

  lemma ToggleKeepsNoDuplicates(prev: seq<string>, id: string)
    requires NoDuplicates(prev)
    ensures NoDuplicates(ToggleCoverage(prev, id))
  {
    if id in prev {
      RemoveAllKeepsNoDuplicates(prev, id);
    }
  }

  /** Toggling an id that was not selected, then toggling it again, restores the selection. */
  lemma ToggleTwiceRestores(prev: seq<string>, id: string)
    requires id !in prev
    ensures ToggleCoverage(ToggleCoverage(prev, id), id) == prev
  {
    RemoveAllAppend(prev, [id], id);
    RemoveAllAbsent(prev, id);
    assert RemoveAll([id], id) == [];
  }

  /** The record saved under the 'coverageOptions' key. */
  datatype CoverageData = CoverageData(selectedCoverages: seq<string>, excessAmount: int,
                                       policyPeriod: string, calculatedPremium: int)

  datatype SubmitResult =
    | NoCoverageSelected  // 'Please select at least one coverage option'
    | Saved(data: CoverageData)

  /** `handleSubmit()`: refuse an empty selection, else save the quote inputs and mark the step complete. */
  method SubmitCoverage(selected: seq<string>, excess: int, period: string, vehicleType: Option<string>,
                        tracker: Progress.ProgressTracker, saved: Storage.Slot<CoverageData>)
    returns (r: SubmitResult)
    modifies tracker, saved
    ensures selected == [] ==> r == NoCoverageSelected && unchanged(tracker, saved)
    ensures selected != [] ==>
              && r == Saved(CoverageData(selected, excess, period, Premium(COVERAGE_OPTIONS, selected, excess, period, vehicleType)))
              && saved.value == Some(r.data)
              && tracker.progress == old(tracker.progress)[Progress.COVERAGE_OPTIONS := 100]
  {
    if |selected| == 0 {
      return NoCoverageSelected;
    }
    var premium := CalculatePremium(COVERAGE_OPTIONS, selected, excess, period, vehicleType);
    var data := CoverageData(selected, excess, period, premium);
    saved.value := Some(data);
    tracker.UpdateStepProgress(Progress.COVERAGE_OPTIONS, 100);
    r := Saved(data);
  }
}
