/** `GET api/DicomPatient/patientId/{patientId}`: the encounter view of the
    first DICOM patient row with the given id. */
module DicomPatientController {
  import opened Wrappers
  import opened Guids
  import opened Calendar
  import opened Text
  import opened Seqs
  import opened Http
  import opened PtEncounter

  /** The fields of a `DicomPatient` row that the projection reads. */
  datatype DicomPatient = DicomPatient(
    patientId: string,
    patientsName: Option<string>,
    patientsSex: Option<string>,
    patientsBirthDate: Option<string>,
    otherPatientId: Option<string>,
    modifiedDateTime: Option<string>,
    createDateTime: Option<string>)

  const BlankIdMessage: string := "病患 ID 不能為空"

  const RetrievalErrorMessage: string := "取得病患資料時發生錯誤"

  function PatientNotFoundMessage(patientId: string): string {
    "找不到病患 ID 為 " + patientId + " 的資料"
  }

  /** The `UpdateTime` chain: the modification time when it is non-empty and
      parses, otherwise the creation time when it parses, otherwise null. */
  function UpdateTime(parse: DateParser, modified: Option<string>, created: Option<string>): (r: Option<DateTime>)
    ensures !IsNullOrEmpty(modified) && parse(modified.value).Parsed? ==> r == Some(parse(modified.value).value)
    ensures IsNullOrEmpty(modified) || parse(modified.value).Rejected? ==> r == TryParse(parse, created)
    ensures r.Some? ==> (modified.Some? && parse(modified.value) == Parsed(r.value)) ||
                        (created.Some? && parse(created.value) == Parsed(r.value))
  {
    if !IsNullOrEmpty(modified) then
      if TryParse(parse, modified).Some? then TryParse(parse, modified)
      else TryParse(parse, created)
    else TryParse(parse, created)
  }

  /** The `Select` lambda, applied to the first match only. */
  function ProjectPatient(x: DicomPatient, puid: Guid, parse: DateParser): Encounter {
    Encounter(
      puid := puid,
      lifeTimeNumber := Trim(x.patientId),
      encounterNumber := None,
      lastName := TrimOrNull(x.patientsName),
      firstName := Some(""),
      gender := x.patientsSex,
      dateOfBirth := BirthDate(x.patientsBirthDate),
      nationalId := x.otherPatientId,
      updateTime := UpdateTime(parse, x.modifiedDateTime, x.createDateTime))
  }

  /** What the projection promises: the life-time number is the patient id
      without surrounding white space, and empty only for a blank id; the last
      name is trimmed or null with the stored name; the first name is empty;
      sex and national id are copied; the birth date is the exact "yyyyMMdd"
      reading at midnight, or null; the update time follows the fallback chain. */
  lemma ProjectPatientFields(x: DicomPatient, puid: Guid, parse: DateParser)
    ensures var e := ProjectPatient(x, puid, parse);
            e.puid == puid && e.encounterNumber.None? && e.firstName == Some("") &&
            e.gender == x.patientsSex && e.nationalId == x.otherPatientId &&
            (exists i, j :: 0 <= i <= j <= |x.patientId| && e.lifeTimeNumber == x.patientId[i..j] &&
                            AllWhiteSpace(x.patientId[..i]) && AllWhiteSpace(x.patientId[j..])) &&
            (e.lifeTimeNumber == [] <==> AllWhiteSpace(x.patientId)) &&
            (e.lastName.Some? <==> x.patientsName.Some?) &&
            (e.lastName.Some? ==> e.lastName.value == Trim(x.patientsName.value)) &&
            (e.dateOfBirth.Some? <==> x.patientsBirthDate.Some? && ParseCompactDate(x.patientsBirthDate.value).Some?) &&
            (e.dateOfBirth.Some? ==> e.dateOfBirth == ParseCompactDate(x.patientsBirthDate.value) &&
                                     e.dateOfBirth.value.hour == 0) &&
            e.updateTime == UpdateTime(parse, x.modifiedDateTime, x.createDateTime)
  {
    TrimIsCoreSlice(x.patientId);
    WhiteSpaceIffTrimEmpty(x.patientId);
  }

  /** `GetByConditionAsync(x => x.PatientId == patientId)`. */
  function PatientsWithId(table: seq<DicomPatient>, patientId: string): (r: seq<DicomPatient>)
    ensures forall i :: 0 <= i < |r| ==> r[i] in table && r[i].patientId == patientId
    ensures forall i :: 0 <= i < |table| && table[i].patientId == patientId ==> table[i] in r
    ensures r == [] <==> forall i :: 0 <= i < |table| ==> table[i].patientId != patientId
  {
    FilterEmpty(table, (x: DicomPatient) => x.patientId == patientId);
    Filter(table, (x: DicomPatient) => x.patientId == patientId)
  }

  /** The action. `patients` is the store read (or its exception), `puid` is
      `Guid.NewGuid()`, `parse` is the generic `DateTime.TryParse`. */
  function GetByPatientId(patientId: Option<string>, patients: Fetch<seq<DicomPatient>>, puid: Guid, parse: DateParser)
    : (r: ActionResult<Encounter>)
    ensures IsNullOrWhiteSpace(patientId) ==> r == BadRequest(BlankIdMessage)
    ensures !IsNullOrWhiteSpace(patientId) && patients.StoreError? ==> r == StatusCode(500, RetrievalErrorMessage)
    ensures !IsNullOrWhiteSpace(patientId) && patients.Rows? &&
            (forall i :: 0 <= i < |patients.rows| ==> patients.rows[i].patientId != patientId.value) ==>
              r == NotFound(PatientNotFoundMessage(patientId.value))
    ensures !IsNullOrWhiteSpace(patientId) && patients.Rows? &&
            (exists i :: 0 <= i < |patients.rows| && patients.rows[i].patientId == patientId.value) ==>
              r.Ok?
    ensures r.Ok? ==>
              patientId.Some? && patients.Rows? &&
              (exists k :: 0 <= k < |patients.rows| && patients.rows[k].patientId == patientId.value &&
                           (forall j :: 0 <= j < k ==> patients.rows[j].patientId != patientId.value) &&
                           r.value == ProjectPatient(patients.rows[k], puid, parse)) &&
              r.value.lifeTimeNumber == Trim(patientId.value) && r.value.lifeTimeNumber != [] &&
              r.value.firstName == Some("") && r.value.encounterNumber.None?
  {
    if IsNullOrWhiteSpace(patientId) then BadRequest(BlankIdMessage)
    else match patients
      case StoreError(_) => StatusCode(500, RetrievalErrorMessage)
      case Rows(table) =>
        var matches := PatientsWithId(table, patientId.value);
        if matches == [] then NotFound(PatientNotFoundMessage(patientId.value))
        else
          FilterHead(table, (x: DicomPatient) => x.patientId == patientId.value);
          WhiteSpaceIffTrimEmpty(patientId.value);
          Ok(ProjectPatient(matches[0], puid, parse))
  }
}
