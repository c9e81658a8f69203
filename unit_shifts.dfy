/** Clinical units, their configured shifts, and the shift resolver that both
    the write path and the diagnostic endpoint consult. */
module UnitShifts {
  import opened Wrappers
  import opened Guids
  import opened Calendar
  import opened Seqs

  /** A row of the clinical-unit table (`SysClinicalUnit`). */
  datatype ClinicalUnit = ClinicalUnit(puid: Guid, clinicalUnitLabel: Option<string>)

  /** A row of the shift table (`SysClinicalUnitShift`); the shift belongs to
      the unit `clinicalUnitPuid`. */
  datatype ClinicalUnitShift = ClinicalUnitShift(
    puid: Guid, clinicalUnitPuid: Guid, shortLabel: Option<string>, longLabel: Option<string>)

  /** The resolver's answer: the matched shift and the clinical date as text. */
  datatype ShiftTimeResult = ShiftTimeResult(clinicalUnitShiftPuid: Option<Guid>, clinicalDate: Option<string>)

  /** `ShiftTimeService.DetermineShiftAndTime(observation, units, shifts, selectedUnit)`,
      whose rules are not part of this model; `None` is its `null`. */
  type ShiftResolver = (DateTime, seq<ClinicalUnit>, seq<ClinicalUnitShift>, Option<Guid>) -> Option<ShiftTimeResult>

  /** `GetByConditionAsync(cu => cu.Puid == id)` on the unit table. */
  function UnitsWithPuid(table: seq<ClinicalUnit>, id: Guid): (r: seq<ClinicalUnit>)
    ensures forall i :: 0 <= i < |r| ==> r[i] in table && r[i].puid == id
    ensures forall i :: 0 <= i < |table| && table[i].puid == id ==> table[i] in r
    ensures r == [] <==> forall i :: 0 <= i < |table| ==> table[i].puid != id
  {
    FilterEmpty(table, (u: ClinicalUnit) => u.puid == id);
    Filter(table, (u: ClinicalUnit) => u.puid == id)
  }

  /** `GetByConditionAsync(s => s.ClinicalUnitPuid == id)` on the shift table. */
  function ShiftsOfUnit(table: seq<ClinicalUnitShift>, id: Guid): (r: seq<ClinicalUnitShift>)
    ensures forall i :: 0 <= i < |r| ==> r[i] in table && r[i].clinicalUnitPuid == id
    ensures forall i :: 0 <= i < |table| && table[i].clinicalUnitPuid == id ==> table[i] in r
    ensures r == [] <==> forall i :: 0 <= i < |table| ==> table[i].clinicalUnitPuid != id
  {
    FilterEmpty(table, (s: ClinicalUnitShift) => s.clinicalUnitPuid == id);
    Filter(table, (s: ClinicalUnitShift) => s.clinicalUnitPuid == id)
  }
}
