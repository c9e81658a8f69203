/** The shift controller: the unit owning a shift, and the diagnostic endpoint
    that runs the resolver over a fixed list of sample instants. */
module ClinicalUnitShiftController {
  import opened Wrappers
  import opened Guids
  import opened Calendar
  import opened Http
  import opened UnitShifts
  import opened Seqs

  /** `GetByIdAsync(id)` on the shift table: the row whose key is `id`, if any. */
  function ShiftById(table: seq<ClinicalUnitShift>, id: Guid): (r: Option<ClinicalUnitShift>)
    ensures r.None? <==> forall i :: 0 <= i < |table| ==> table[i].puid != id
    ensures r.Some? ==> r.value in table && r.value.puid == id
  {
    Find(table, (s: ClinicalUnitShift) => s.puid == id)
  }

  /** `GetByIdAsync(id)` on the clinical-unit table. */
  function UnitById(table: seq<ClinicalUnit>, id: Guid): (r: Option<ClinicalUnit>)
    ensures r.None? <==> forall i :: 0 <= i < |table| ==> table[i].puid != id
    ensures r.Some? ==> r.value in table && r.value.puid == id
  {
    Find(table, (u: ClinicalUnit) => u.puid == id)
  }

  function UnknownShiftMessage(id: Guid): string {
    "未找到ID為 " + GuidToString(id) + " 的輪班資訊"
  }

  function UnitOfShiftMissingMessage(id: Guid): string {
    "未找到與輪班ID " + GuidToString(id) + " 關聯的臨床單位"
  }

  /** `GET {id}/clinicalunit`: look the shift up, then the unit it belongs to. */
  method GetClinicalUnitByShiftId(id: Guid, shiftTable: seq<ClinicalUnitShift>, unitTable: seq<ClinicalUnit>)
    returns (r: ActionResult<ClinicalUnit>)
    ensures (forall i :: 0 <= i < |shiftTable| ==> shiftTable[i].puid != id) ==>
              r == NotFound(UnknownShiftMessage(id))
    ensures ShiftById(shiftTable, id).Some? &&
            (forall i :: 0 <= i < |unitTable| ==> unitTable[i].puid != ShiftById(shiftTable, id).value.clinicalUnitPuid) ==>
              r == NotFound(UnitOfShiftMissingMessage(id))
    ensures r.Ok? ==> r.value in unitTable &&
                      exists s :: s in shiftTable && s.puid == id && r.value.puid == s.clinicalUnitPuid
    ensures ShiftById(shiftTable, id).Some? &&
            UnitById(unitTable, ShiftById(shiftTable, id).value.clinicalUnitPuid).Some? ==>
              r == Ok(UnitById(unitTable, ShiftById(shiftTable, id).value.clinicalUnitPuid).value)
    ensures !r.Ok? ==> r.NotFound?
  {
    var shift := ShiftById(shiftTable, id);
    if shift.None? {
      return NotFound(UnknownShiftMessage(id));
    }
    var clinicalUnit := UnitById(unitTable, shift.value.clinicalUnitPuid);
    if clinicalUnit.None? {
      return NotFound(UnitOfShiftMissingMessage(id));
    }
    return Ok(clinicalUnit.value);
  }

  /** The sample instants the diagnostic endpoint resolves: 2025-06-11 07:00:00. */
  const TestTimes: seq<DateTime> := [DateTime(2025, 6, 11, 7, 0, 0)]

  function UnknownUnitMessage(id: Guid): string {
    "找不到PUID為 " + GuidToString(id) + " 的臨床單位"
  }

  function NoShiftsMessage(id: Guid): string {
    "找不到與臨床單位 " + GuidToString(id) + " 相關的班別資料"
  }

  /** The per-instant loop: one entry per test time, in order, each the resolver's
      answer (or null) for the same unit and shift snapshot. */
  method CollectShiftResults(
    testTimes: seq<DateTime>, units: seq<ClinicalUnit>, shifts: seq<ClinicalUnitShift>,
    clinicalUnitPuid: Guid, resolve: ShiftResolver)
    returns (results: seq<Option<ShiftTimeResult>>)
    ensures |results| == |testTimes|
    ensures forall i :: 0 <= i < |testTimes| ==>
              results[i] == resolve(testTimes[i], units, shifts, Some(clinicalUnitPuid))
  {
    results := [];
    var i := 0;
    while i < |testTimes|
      invariant 0 <= i <= |testTimes|
      invariant |results| == i
      invariant forall k :: 0 <= k < i ==> results[k] == resolve(testTimes[k], units, shifts, Some(clinicalUnitPuid))
    {
      var shiftTimeResult := resolve(testTimes[i], units, shifts, Some(clinicalUnitPuid));
      if shiftTimeResult.Some? {
        results := results + [shiftTimeResult];
      } else {
        results := results + [None];
      }
      i := i + 1;
    }
  }

  /** `GET TestShiftsByTime/{clinicalUnitPuid}`: both snapshots must be
      non-empty; then every sample instant is resolved. */
  method TestShiftsByTime(
    clinicalUnitPuid: Guid, unitTable: seq<ClinicalUnit>, shiftTable: seq<ClinicalUnitShift>, resolve: ShiftResolver)
    returns (r: ActionResult<seq<Option<ShiftTimeResult>>>)
    ensures UnitsWithPuid(unitTable, clinicalUnitPuid) == [] ==> r == BadRequest(UnknownUnitMessage(clinicalUnitPuid))
    ensures UnitsWithPuid(unitTable, clinicalUnitPuid) != [] && ShiftsOfUnit(shiftTable, clinicalUnitPuid) == [] ==>
              r == BadRequest(NoShiftsMessage(clinicalUnitPuid))
    ensures UnitsWithPuid(unitTable, clinicalUnitPuid) != [] && ShiftsOfUnit(shiftTable, clinicalUnitPuid) != [] ==>
              r.Ok? && |r.value| == 1 &&
              r.value[0] == resolve(DateTime(2025, 6, 11, 7, 0, 0), UnitsWithPuid(unitTable, clinicalUnitPuid),
                                    ShiftsOfUnit(shiftTable, clinicalUnitPuid), Some(clinicalUnitPuid))
  {
    var clinicalUnits := UnitsWithPuid(unitTable, clinicalUnitPuid);
    if clinicalUnits == [] {
      return BadRequest(UnknownUnitMessage(clinicalUnitPuid));
    }
    var shifts := ShiftsOfUnit(shiftTable, clinicalUnitPuid);
    if shifts == [] {
      return BadRequest(NoShiftsMessage(clinicalUnitPuid));
    }
    var results := CollectShiftResults(TestTimes, clinicalUnits, shifts, clinicalUnitPuid, resolve);
    return Ok(results);
  }

  // The loop as the source writes it. Its body is an `async` lambda handed to
  // `List.ForEach`, so it runs as `async void`: the unused `DateTime.Parse` of
  // the clinical date throws before `Add`, the exception leaves the lambda
  // for the thread pool, and `ForEach` goes on with the next instant.

  /** The entries the as-written loop leaves in the list. */
  function SurvivingResults(
    testTimes: seq<DateTime>, units: seq<ClinicalUnit>, shifts: seq<ClinicalUnitShift>,
    clinicalUnitPuid: Guid, resolve: ShiftResolver, parse: DateParser): seq<Option<ShiftTimeResult>>
  {
    if testTimes == [] then []
    else
      var earlier := SurvivingResults(testTimes[..|testTimes| - 1], units, shifts, clinicalUnitPuid, resolve, parse);
      var res := resolve(testTimes[|testTimes| - 1], units, shifts, Some(clinicalUnitPuid));
      if res.Some? && res.value.clinicalDate.Some? && res.value.clinicalDate.value != "" &&
         parse(res.value.clinicalDate.value).Rejected?
      then earlier
      else earlier + [res]
  }

  method CollectShiftResultsAsWritten(
    testTimes: seq<DateTime>, units: seq<ClinicalUnit>, shifts: seq<ClinicalUnitShift>,
    clinicalUnitPuid: Guid, resolve: ShiftResolver, parse: DateParser)
    returns (results: seq<Option<ShiftTimeResult>>)
    ensures results == SurvivingResults(testTimes, units, shifts, clinicalUnitPuid, resolve, parse)
  {
    results := [];
    var i := 0;
    while i < |testTimes|
      invariant 0 <= i <= |testTimes|
      invariant results == SurvivingResults(testTimes[..i], units, shifts, clinicalUnitPuid, resolve, parse)
    {
      assert testTimes[..i + 1][..i] == testTimes[..i];
      var shiftTimeResult := resolve(testTimes[i], units, shifts, Some(clinicalUnitPuid));
      var thrown := false;
      if shiftTimeResult.Some? {
        var clinicalDate := shiftTimeResult.value.clinicalDate;
        if clinicalDate.Some? && clinicalDate.value != "" {
          var observationShiftDate := parse(clinicalDate.value);
          thrown := observationShiftDate.Rejected?;
        }
        if !thrown {
          results := results + [shiftTimeResult];
        }
      } else {
        results := results + [None];
      }
      i := i + 1;
    }
    assert testTimes[..i] == testTimes;
  }

  method TestShiftsByTimeAsWritten(
    clinicalUnitPuid: Guid, unitTable: seq<ClinicalUnit>, shiftTable: seq<ClinicalUnitShift>,
    resolve: ShiftResolver, parse: DateParser)
    returns (r: ActionResult<seq<Option<ShiftTimeResult>>>)
    ensures UnitsWithPuid(unitTable, clinicalUnitPuid) == [] ==> r == BadRequest(UnknownUnitMessage(clinicalUnitPuid))
    ensures UnitsWithPuid(unitTable, clinicalUnitPuid) != [] && ShiftsOfUnit(shiftTable, clinicalUnitPuid) == [] ==>
              r == BadRequest(NoShiftsMessage(clinicalUnitPuid))
    ensures UnitsWithPuid(unitTable, clinicalUnitPuid) != [] && ShiftsOfUnit(shiftTable, clinicalUnitPuid) != [] ==>
              r == Ok(SurvivingResults(TestTimes, UnitsWithPuid(unitTable, clinicalUnitPuid),
                                       ShiftsOfUnit(shiftTable, clinicalUnitPuid), clinicalUnitPuid, resolve, parse))
  {
    var clinicalUnits := UnitsWithPuid(unitTable, clinicalUnitPuid);
    if clinicalUnits == [] {
      return BadRequest(UnknownUnitMessage(clinicalUnitPuid));
    }
    var shifts := ShiftsOfUnit(shiftTable, clinicalUnitPuid);
    if shifts == [] {
      return BadRequest(NoShiftsMessage(clinicalUnitPuid));
    }
    var results := CollectShiftResultsAsWritten(TestTimes, clinicalUnits, shifts, clinicalUnitPuid, resolve, parse);
    return Ok(results);
  }

  /** The as-written list keeps one entry per instant exactly when no resolved
      clinical date is rejected by the generic parser; otherwise it is shorter. */
  lemma {:induction false} SurvivingResultsComplete(
    testTimes: seq<DateTime>, units: seq<ClinicalUnit>, shifts: seq<ClinicalUnitShift>,
    clinicalUnitPuid: Guid, resolve: ShiftResolver, parse: DateParser)
    ensures |SurvivingResults(testTimes, units, shifts, clinicalUnitPuid, resolve, parse)| <= |testTimes|
    ensures |SurvivingResults(testTimes, units, shifts, clinicalUnitPuid, resolve, parse)| == |testTimes| <==>
            forall i :: 0 <= i < |testTimes| ==>
              var res := resolve(testTimes[i], units, shifts, Some(clinicalUnitPuid));
              !(res.Some? && res.value.clinicalDate.Some? && res.value.clinicalDate.value != "" &&
                parse(res.value.clinicalDate.value).Rejected?)
  {
    if testTimes != [] {
      var front := testTimes[..|testTimes| - 1];
      SurvivingResultsComplete(front, units, shifts, clinicalUnitPuid, resolve, parse);
      forall i | 0 <= i < |front| ensures front[i] == testTimes[i] { }
    }
  }

  /** A resolver that answers with the clinical date "n/a", which the parser
      rejects: the as-written endpoint returns an empty list for one test time. */
  lemma DroppedEntryExample(clinicalUnitPuid: Guid, units: seq<ClinicalUnit>, shifts: seq<ClinicalUnitShift>)
    ensures var resolve: ShiftResolver := (t, us, ss, u) => Some(ShiftTimeResult(None, Some("n/a")));
            var parse: DateParser := s => Rejected("String 'n/a' was not recognized as a valid DateTime.");
            SurvivingResults(TestTimes, units, shifts, clinicalUnitPuid, resolve, parse) == [] &&
            |TestTimes| == 1
  {
    var resolve: ShiftResolver := (t, us, ss, u) => Some(ShiftTimeResult(None, Some("n/a")));
    var parse: DateParser := s => Rejected("String 'n/a' was not recognized as a valid DateTime.");
    assert TestTimes[..0] == [];
    assert SurvivingResults(TestTimes[..0], units, shifts, clinicalUnitPuid, resolve, parse) == [];
  }
}
