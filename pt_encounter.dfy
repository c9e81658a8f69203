/** The `A_PtEncounter` fields the DICOM projections fill, and the birth-date
    reading both projections share. Every other field of the entity stays null. */
module PtEncounter {
  import opened Wrappers
  import opened Guids
  import opened Calendar
  import opened Text

  datatype Encounter = Encounter(
    puid: Guid,
    lifeTimeNumber: string,
    encounterNumber: Option<string>,
    lastName: Option<string>,
    firstName: Option<string>,
    gender: Option<string>,
    dateOfBirth: Option<DateTime>,
    nationalId: Option<string>,
    updateTime: Option<DateTime>)

  /** `x?.Trim()`. */
  function TrimOrNull(s: Option<string>): Option<string> {
    if s.Some? then Some(Trim(s.value)) else None
  }

  /** `!IsNullOrEmpty(b) ? (TryParseExact(b, "yyyyMMdd", ...) ? d : null) : null`:
      a birth date is reported exactly when the stored text is an exact
      "yyyyMMdd" date, and it is then the date that text renders; a missing or
      malformed text gives null, never an error. */
  function BirthDate(patientsBirthDate: Option<string>): (r: Option<DateTime>)
    ensures r.Some? <==> patientsBirthDate.Some? && ParseCompactDate(patientsBirthDate.value).Some?
    ensures r.Some? ==> ValidDateTime(r.value) && FormatCompactDate(r.value) == patientsBirthDate.value
    ensures r.Some? ==> r == ParseCompactDate(patientsBirthDate.value) &&
                        r.value.hour == 0 && r.value.minute == 0 && r.value.second == 0
  {
    if !IsNullOrEmpty(patientsBirthDate) then
      var d := ParseCompactDate(patientsBirthDate.value);
      if d.Some? then CompactDateCanonical(patientsBirthDate.value); d else None
    else None
  }
}
