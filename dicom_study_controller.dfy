/** `api/DicomStudy`: the encounter view of a study, and the whole study list. */
module DicomStudyController {
  import opened Wrappers
  import opened Guids
  import opened Calendar
  import opened Text
  import opened Seqs
  import opened Http
  import opened PtEncounter

  /** The fields of a `SearchStudyOfCaseStatusView` row that the projection reads. */
  datatype StudyView = StudyView(
    patientId: string,
    patientsName: Option<string>,
    patientsSex: Option<string>,
    patientsBirthDate: Option<string>,
    otherPatientId: Option<string>,
    accessionNumber: Option<string>)

  const RetrievalErrorMessage: string := "取得病患資料時發生錯誤"

  const StudyNotFoundMessage: string := "找不到檢查資料"

  const NoStudiesMessage: string := "找不到任何資料"

  /** `x.PatientId == patientId && x.AccessionNumber == accessionNumber`. */
  predicate MatchesStudy(x: StudyView, patientId: string, accessionNumber: string) {
    x.patientId == patientId && x.accessionNumber == Some(accessionNumber)
  }

  function StudiesMatching(table: seq<StudyView>, patientId: string, accessionNumber: string): (r: seq<StudyView>)
    ensures forall i :: 0 <= i < |r| ==> r[i] in table && MatchesStudy(r[i], patientId, accessionNumber)
    ensures forall i :: 0 <= i < |table| && MatchesStudy(table[i], patientId, accessionNumber) ==> table[i] in r
    ensures r == [] <==> forall i :: 0 <= i < |table| ==> !MatchesStudy(table[i], patientId, accessionNumber)
  {
    FilterEmpty(table, (x: StudyView) => MatchesStudy(x, patientId, accessionNumber));
    Filter(table, (x: StudyView) => MatchesStudy(x, patientId, accessionNumber))
  }

  /** The `Select` lambda, applied to the first match only; a matching row
      always has an accession number. */
  function ProjectStudy(x: StudyView, puid: Guid): Encounter
    requires x.accessionNumber.Some?
  {
    Encounter(
      puid := puid,
      lifeTimeNumber := Trim(x.patientId),
      encounterNumber := Some(Trim(x.accessionNumber.value)),
      lastName := TrimOrNull(x.patientsName),
      firstName := Some(""),
      gender := x.patientsSex,
      dateOfBirth := BirthDate(x.patientsBirthDate),
      nationalId := x.otherPatientId,
      updateTime := None)
  }

  /** What the projection promises: life-time number and encounter number are the
      patient id and accession number without surrounding white space; the last
      name is trimmed or null with the stored name; the first name is empty; sex
      and national id are copied; the birth date is the exact "yyyyMMdd" reading
      at midnight, or null; there is no update time. */
  lemma ProjectStudyFields(x: StudyView, puid: Guid)
    requires x.accessionNumber.Some?
    ensures var e := ProjectStudy(x, puid);
            e.puid == puid && e.firstName == Some("") && e.updateTime.None? &&
            e.gender == x.patientsSex && e.nationalId == x.otherPatientId &&
            (exists i, j :: 0 <= i <= j <= |x.patientId| && e.lifeTimeNumber == x.patientId[i..j] &&
                            AllWhiteSpace(x.patientId[..i]) && AllWhiteSpace(x.patientId[j..])) &&
            e.encounterNumber.Some? &&
            (exists i, j :: 0 <= i <= j <= |x.accessionNumber.value| && e.encounterNumber.value == x.accessionNumber.value[i..j] &&
                            AllWhiteSpace(x.accessionNumber.value[..i]) && AllWhiteSpace(x.accessionNumber.value[j..])) &&
            (e.lastName.Some? <==> x.patientsName.Some?) &&
            (e.lastName.Some? ==> e.lastName.value == Trim(x.patientsName.value)) &&
            (e.dateOfBirth.Some? <==> x.patientsBirthDate.Some? && ParseCompactDate(x.patientsBirthDate.value).Some?) &&
            (e.dateOfBirth.Some? ==> e.dateOfBirth == ParseCompactDate(x.patientsBirthDate.value) &&
                                     e.dateOfBirth.value.hour == 0)
  {
    TrimIsCoreSlice(x.patientId);
    TrimIsCoreSlice(x.accessionNumber.value);
  }

  /** `GET patientId/{patientId}/accessionNumber/{accessionNumber}`. */
  function GetStudyLevelView(patientId: string, accessionNumber: string, studies: Fetch<seq<StudyView>>, puid: Guid)
    : (r: ActionResult<Encounter>)
    ensures studies.StoreError? ==> r == StatusCode(500, RetrievalErrorMessage)
    ensures studies.Rows? && (forall i :: 0 <= i < |studies.rows| ==> !MatchesStudy(studies.rows[i], patientId, accessionNumber)) ==>
              r == NotFound(StudyNotFoundMessage)
    ensures studies.Rows? && (exists i :: 0 <= i < |studies.rows| && MatchesStudy(studies.rows[i], patientId, accessionNumber)) ==>
              r.Ok?
    ensures r.Ok? ==>
              studies.Rows? &&
              (exists k :: 0 <= k < |studies.rows| && MatchesStudy(studies.rows[k], patientId, accessionNumber) &&
                           (forall j :: 0 <= j < k ==> !MatchesStudy(studies.rows[j], patientId, accessionNumber)) &&
                           r.value == ProjectStudy(studies.rows[k], puid)) &&
              r.value.lifeTimeNumber == Trim(patientId) &&
              r.value.encounterNumber == Some(Trim(accessionNumber)) &&
              r.value.firstName == Some("") && r.value.updateTime.None?
    ensures r.Ok? || r.NotFound? || r == StatusCode(500, RetrievalErrorMessage)
  {
    match studies
    case StoreError(_) => StatusCode(500, RetrievalErrorMessage)
    case Rows(table) =>
      var matches := StudiesMatching(table, patientId, accessionNumber);
      if matches == [] then NotFound(StudyNotFoundMessage)
      else
        FilterHead(table, (x: StudyView) => MatchesStudy(x, patientId, accessionNumber));
        Ok(ProjectStudy(matches[0], puid))
  }

  /** `GET`: every row unchanged, or NotFound on an empty table. */
  function GetAllStudyLevelViews(studies: Fetch<seq<StudyView>>): (r: ActionResult<seq<StudyView>>)
    ensures studies.StoreError? ==> r == StatusCode(500, RetrievalErrorMessage)
    ensures studies == Rows([]) ==> r == NotFound(NoStudiesMessage)
    ensures studies.Rows? && studies.rows != [] ==> r == Ok(studies.rows)
  {
    match studies
    case StoreError(_) => StatusCode(500, RetrievalErrorMessage)
    case Rows(table) => if table == [] then NotFound(NoStudiesMessage) else Ok(table)
  }
}
