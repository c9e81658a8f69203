/** The command that stores one case record: parse the case time, resolve the
    shift of the clinical unit, build the record, add it and save. */
module InsertCaseRecord {
  import opened Wrappers
  import opened Guids
  import opened Calendar
  import opened Text
  import opened UnitShifts

  /** The fields of `CaseFormDataDto` the command reads. The free-form `FormData`
      payload enters only through its JSON text, a parameter of `Handle`. */
  datatype CaseFormData = CaseFormData(
    caseId: Guid, formDefinePuid: Guid, caseDateTime: Option<string>, clinicalUnitPuid: Option<Guid>)

  datatype InsertCaseRecordCommand = InsertCaseRecordCommand(formData: CaseFormData, userId: string)

  /** A `PtCaseRecord` row. */
  datatype PtCaseRecord = PtCaseRecord(
    puid: Guid,
    ptCasePuid: Guid,
    formData: string,
    formDefinePuid: Guid,
    observationDateTime: DateTime,
    observationShiftDate: Option<DateTime>,
    clinicalUnitShiftPuid: Option<Guid>,
    storeTime: DateTime,
    careProviderId: string)

  /** The triple `ProcessDateTimeAndShiftInfoAsync` returns. */
  datatype ShiftInfo = ShiftInfo(
    observationDateTime: DateTime, observationShiftDate: Option<DateTime>, clinicalUnitShiftPuid: Option<Guid>)

  /** A helper's normal return, or the message of the exception it throws. */
  datatype Outcome<+T> = Returned(value: T) | Thrown(message: string)

  /** `UnitShiftService.GetUnitByPuid` and `GetUnitShiftsByPuid`, whose queries
      are not part of this model. */
  datatype UnitShiftService = UnitShiftService(
    getUnitByPuid: Guid -> Fetch<seq<ClinicalUnit>>,
    getUnitShiftsByPuid: Guid -> Fetch<seq<ClinicalUnitShift>>)

  const InvalidCaseDateTimeMessage: string := "Invalid CaseDateTime format"

  const ShiftUnresolvedMessage: string := "無法根據提供的時間和臨床單位計算班別資訊"

  /** The form names a clinical unit: the id is present and not `Guid.Empty`. */
  predicate NamesClinicalUnit(form: CaseFormData) {
    form.clinicalUnitPuid.Some? && form.clinicalUnitPuid.value != EmptyGuid
  }

  /** What `ProcessDateTimeAndShiftInfoAsync` returns or throws. */
  function PrepareShiftInfo(form: CaseFormData, service: UnitShiftService, resolve: ShiftResolver, parse: DateParser)
    : Outcome<ShiftInfo>
  {
    var caseDateTime := if form.caseDateTime.Some? then ParseCompactDateTime(form.caseDateTime.value) else None;
    if caseDateTime.None? then Thrown(InvalidCaseDateTimeMessage)
    else if !NamesClinicalUnit(form) then Returned(ShiftInfo(caseDateTime.value, None, None))
    else
      var id := form.clinicalUnitPuid.value;
      match service.getUnitByPuid(id)
      case StoreError(m) => Thrown(m)
      case Rows(units) =>
        match service.getUnitShiftsByPuid(id)
        case StoreError(m) => Thrown(m)
        case Rows(shifts) =>
          match resolve(caseDateTime.value, units, shifts, Some(id))
          case None => Thrown(ShiftUnresolvedMessage)
          case Some(info) =>
            if IsNullOrEmpty(info.clinicalDate) then
              Returned(ShiftInfo(caseDateTime.value, None, info.clinicalUnitShiftPuid))
            else
              match parse(info.clinicalDate.value)
              case Rejected(m) => Thrown(m)
              case Parsed(d) => Returned(ShiftInfo(caseDateTime.value, Some(d), info.clinicalUnitShiftPuid))
  }

  /** `ProcessDateTimeAndShiftInfoAsync`, step by step. */
  method ProcessDateTimeAndShiftInfo(
    formDataDto: CaseFormData, service: UnitShiftService, resolve: ShiftResolver, parse: DateParser)
    returns (r: Outcome<ShiftInfo>)
    ensures r == PrepareShiftInfo(formDataDto, service, resolve, parse)
  {
    var caseDateTime := if formDataDto.caseDateTime.Some? then ParseCompactDateTime(formDataDto.caseDateTime.value) else None;
    if caseDateTime.None? {
      return Thrown(InvalidCaseDateTimeMessage);
    }
    var observationDateTime := caseDateTime.value;
    var observationShiftDate: Option<DateTime> := None;
    if formDataDto.clinicalUnitPuid.None? || formDataDto.clinicalUnitPuid.value == EmptyGuid {
      return Returned(ShiftInfo(observationDateTime, observationShiftDate, None));
    }
    var clinicalUnitPuid := formDataDto.clinicalUnitPuid.value;
    var clinicalUnits := service.getUnitByPuid(clinicalUnitPuid);
    if clinicalUnits.StoreError? {
      return Thrown(clinicalUnits.message);
    }
    var shifts := service.getUnitShiftsByPuid(clinicalUnitPuid);
    if shifts.StoreError? {
      return Thrown(shifts.message);
    }
    var shiftInfo := resolve(observationDateTime, clinicalUnits.rows, shifts.rows, formDataDto.clinicalUnitPuid);
    if shiftInfo.None? {
      return Thrown(ShiftUnresolvedMessage);
    }
    var clinicalUnitShiftPuid := shiftInfo.value.clinicalUnitShiftPuid;
    if !IsNullOrEmpty(shiftInfo.value.clinicalDate) {
      var parsed := parse(shiftInfo.value.clinicalDate.value);
      if parsed.Rejected? {
        return Thrown(parsed.message);
      }
      observationShiftDate := Some(parsed.value);
    }
    return Returned(ShiftInfo(observationDateTime, observationShiftDate, clinicalUnitShiftPuid));
  }

  /** The record `Handle` builds from the request and the prepared shift info. */
  function NewRecord(request: InsertCaseRecordCommand, info: ShiftInfo, puid: Guid, now: DateTime, formDataJson: string)
    : PtCaseRecord
  {
    PtCaseRecord(
      puid := puid,
      ptCasePuid := request.formData.caseId,
      formData := formDataJson,
      formDefinePuid := request.formData.formDefinePuid,
      observationDateTime := info.observationDateTime,
      observationShiftDate := info.observationShiftDate,
      clinicalUnitShiftPuid := info.clinicalUnitShiftPuid,
      storeTime := now,
      careProviderId := request.userId)
  }

  /** A case time that is missing or not exactly "yyyyMMddHHmmss" fails with
      "Invalid CaseDateTime format", whatever the catalog and the resolver say. */
  lemma InvalidCaseDateTimeFails(form: CaseFormData, service: UnitShiftService, resolve: ShiftResolver, parse: DateParser)
    requires form.caseDateTime.None? || ParseCompactDateTime(form.caseDateTime.value).None?
    ensures PrepareShiftInfo(form, service, resolve, parse) == Thrown(InvalidCaseDateTimeMessage)
  {
  }

  /** On success the observation time is the case time read back from its
      fourteen digits: the canonical rendering of the result is the input text. */
  lemma ObservationIsCaseDateTime(
    form: CaseFormData, service: UnitShiftService, resolve: ShiftResolver, parse: DateParser, info: ShiftInfo)
    requires PrepareShiftInfo(form, service, resolve, parse) == Returned(info)
    ensures form.caseDateTime.Some?
    ensures ParseCompactDateTime(form.caseDateTime.value) == Some(info.observationDateTime)
    ensures ValidDateTime(info.observationDateTime)
    ensures FormatCompactDateTime(info.observationDateTime) == form.caseDateTime.value
  {
    CompactDateTimeCanonical(form.caseDateTime.value);
  }

  /** Without a clinical unit the catalog and the resolver are not consulted: the
      outcome is the same for every service, resolver and parser, and carries no
      shift date and no shift. */
  lemma NoUnitSkipsResolver(
    form: CaseFormData, service: UnitShiftService, resolve: ShiftResolver, parse: DateParser,
    otherService: UnitShiftService, otherResolve: ShiftResolver, otherParse: DateParser)
    requires !NamesClinicalUnit(form)
    ensures PrepareShiftInfo(form, service, resolve, parse) == PrepareShiftInfo(form, otherService, otherResolve, otherParse)
    ensures PrepareShiftInfo(form, service, resolve, parse).Returned? ==>
              PrepareShiftInfo(form, service, resolve, parse).value.observationShiftDate.None? &&
              PrepareShiftInfo(form, service, resolve, parse).value.clinicalUnitShiftPuid.None?
  {
  }

  /** When the resolver finds nothing for the unit's snapshot, the command fails
      with the "cannot determine shift" message. */
  lemma UnresolvedShiftFails(
    form: CaseFormData, service: UnitShiftService, resolve: ShiftResolver, parse: DateParser, dt: DateTime)
    requires form.caseDateTime.Some? && ParseCompactDateTime(form.caseDateTime.value) == Some(dt)
    requires NamesClinicalUnit(form)
    requires service.getUnitByPuid(form.clinicalUnitPuid.value).Rows?
    requires service.getUnitShiftsByPuid(form.clinicalUnitPuid.value).Rows?
    requires resolve(dt, service.getUnitByPuid(form.clinicalUnitPuid.value).rows,
                     service.getUnitShiftsByPuid(form.clinicalUnitPuid.value).rows, form.clinicalUnitPuid).None?
    ensures PrepareShiftInfo(form, service, resolve, parse) == Thrown(ShiftUnresolvedMessage)
  {
  }

  /** The resolver's answer for the form's unit: the case time, the units and
      shifts fetched for that id, and the id itself as the selected unit. */
  function ResolverAnswer(form: CaseFormData, service: UnitShiftService, resolve: ShiftResolver, dt: DateTime)
    : Option<ShiftTimeResult>
    requires NamesClinicalUnit(form)
    requires service.getUnitByPuid(form.clinicalUnitPuid.value).Rows?
    requires service.getUnitShiftsByPuid(form.clinicalUnitPuid.value).Rows?
  {
    var id := form.clinicalUnitPuid.value;
    resolve(dt, service.getUnitByPuid(id).rows, service.getUnitShiftsByPuid(id).rows, Some(id))
  }

  /** With a clinical unit, a successful outcome comes from the resolver called
      with the case time, the units and shifts fetched for the form's unit id, and
      that id as the selected unit. The shift id is the resolver's; the shift date
      is present exactly when the resolver's clinical date is a non-empty string,
      and is then that string parsed. */
  lemma ResolvedShiftInfo(
    form: CaseFormData, service: UnitShiftService, resolve: ShiftResolver, parse: DateParser, info: ShiftInfo)
    requires NamesClinicalUnit(form)
    requires PrepareShiftInfo(form, service, resolve, parse) == Returned(info)
    ensures service.getUnitByPuid(form.clinicalUnitPuid.value).Rows?
    ensures service.getUnitShiftsByPuid(form.clinicalUnitPuid.value).Rows?
    ensures ResolverAnswer(form, service, resolve, info.observationDateTime).Some?
    ensures info.clinicalUnitShiftPuid == ResolverAnswer(form, service, resolve, info.observationDateTime).value.clinicalUnitShiftPuid
    ensures info.observationShiftDate.Some? <==>
            !IsNullOrEmpty(ResolverAnswer(form, service, resolve, info.observationDateTime).value.clinicalDate)
    ensures info.observationShiftDate.Some? ==>
            parse(ResolverAnswer(form, service, resolve, info.observationDateTime).value.clinicalDate.value) ==
            Parsed(info.observationShiftDate.value)
  {
  }

  /** A store failure while fetching the unit or its shifts surfaces unchanged. */
  lemma StoreFailurePropagates(form: CaseFormData, service: UnitShiftService, resolve: ShiftResolver, parse: DateParser)
    requires form.caseDateTime.Some? && ParseCompactDateTime(form.caseDateTime.value).Some?
    requires NamesClinicalUnit(form)
    ensures service.getUnitByPuid(form.clinicalUnitPuid.value).StoreError? ==>
              PrepareShiftInfo(form, service, resolve, parse) ==
              Thrown(service.getUnitByPuid(form.clinicalUnitPuid.value).message)
    ensures service.getUnitByPuid(form.clinicalUnitPuid.value).Rows? &&
            service.getUnitShiftsByPuid(form.clinicalUnitPuid.value).StoreError? ==>
              PrepareShiftInfo(form, service, resolve, parse) ==
              Thrown(service.getUnitShiftsByPuid(form.clinicalUnitPuid.value).message)
  {
  }

  /** The fields of the persisted record on success: identifiers from the request,
      the user as care provider, the observation time read from the case time, and
      the shift fields from the prepared info, which with a unit are the resolver's. */
  lemma PersistedRecordFields(
    request: InsertCaseRecordCommand, service: UnitShiftService, resolve: ShiftResolver, parse: DateParser,
    puid: Guid, now: DateTime, formDataJson: string, info: ShiftInfo, rec: PtCaseRecord)
    requires PrepareShiftInfo(request.formData, service, resolve, parse) == Returned(info)
    requires rec == NewRecord(request, info, puid, now, formDataJson)
    ensures rec.puid == puid && rec.ptCasePuid == request.formData.caseId &&
            rec.formDefinePuid == request.formData.formDefinePuid && rec.careProviderId == request.userId &&
            rec.storeTime == now && rec.formData == formDataJson &&
            request.formData.caseDateTime.Some? &&
            FormatCompactDateTime(rec.observationDateTime) == request.formData.caseDateTime.value &&
            (!NamesClinicalUnit(request.formData) ==> rec.observationShiftDate.None? && rec.clinicalUnitShiftPuid.None?)
    ensures rec.observationDateTime == info.observationDateTime &&
            rec.observationShiftDate == info.observationShiftDate &&
            rec.clinicalUnitShiftPuid == info.clinicalUnitShiftPuid
    ensures NamesClinicalUnit(request.formData) ==>
              service.getUnitByPuid(request.formData.clinicalUnitPuid.value).Rows? &&
              service.getUnitShiftsByPuid(request.formData.clinicalUnitPuid.value).Rows? &&
              ResolverAnswer(request.formData, service, resolve, rec.observationDateTime).Some? &&
              rec.clinicalUnitShiftPuid ==
                ResolverAnswer(request.formData, service, resolve, rec.observationDateTime).value.clinicalUnitShiftPuid &&
              (rec.observationShiftDate.Some? <==>
                 !IsNullOrEmpty(ResolverAnswer(request.formData, service, resolve, rec.observationDateTime).value.clinicalDate))
  {
    ObservationIsCaseDateTime(request.formData, service, resolve, parse, info);
    if NamesClinicalUnit(request.formData) {
      ResolvedShiftInfo(request.formData, service, resolve, parse, info);
    }
  }

  /** The case-record repository together with its unit of work: `AddAsync`
      tracks a record, `SaveAsync` commits every tracked record. */
  class CaseRecordRepository {
    var tracked: seq<PtCaseRecord>
    var stored: seq<PtCaseRecord>

    constructor(initial: seq<PtCaseRecord>)
      ensures tracked == [] && stored == initial
    {
      tracked := [];
      stored := initial;
    }

    method Add(rec: PtCaseRecord)
      modifies this
      ensures tracked == old(tracked) + [rec] && stored == old(stored)
    {
      tracked := tracked + [rec];
    }

    method Save()
      modifies this
      ensures stored == old(stored) + old(tracked) && tracked == []
    {
      stored := stored + tracked;
      tracked := [];
    }
  }

  class InsertCaseRecordCommandHandler {
    const repository: CaseRecordRepository
    const unitShiftService: UnitShiftService
    const shiftTimeService: ShiftResolver

    constructor(repository: CaseRecordRepository, unitShiftService: UnitShiftService, shiftTimeService: ShiftResolver)
      ensures this.repository == repository && this.unitShiftService == unitShiftService &&
              this.shiftTimeService == shiftTimeService
    {
      this.repository := repository;
      this.unitShiftService := unitShiftService;
      this.shiftTimeService := shiftTimeService;
    }

    /** `Handle`: every exception becomes `Failure(message)` and leaves the
        repository as it was; on success exactly the new record is committed and
        its id is returned as text. `newPuid` is `Guid.NewGuid()`, `now` is
        `DateTime.Now`, `formDataJson` is the serialized form payload. */
    method Handle(request: InsertCaseRecordCommand, parse: DateParser, newPuid: Guid, now: DateTime, formDataJson: string)
      returns (r: Result<string>)
      modifies repository
      ensures var outcome := PrepareShiftInfo(request.formData, unitShiftService, shiftTimeService, parse);
              match outcome
              case Thrown(m) =>
                r == Failure(m) &&
                repository.tracked == old(repository.tracked) && repository.stored == old(repository.stored)
              case Returned(info) =>
                r == Success(GuidToString(newPuid)) && repository.tracked == [] &&
                repository.stored == old(repository.stored) + old(repository.tracked) +
                                     [NewRecord(request, info, newPuid, now, formDataJson)]
    {
      var prepared := ProcessDateTimeAndShiftInfo(request.formData, unitShiftService, shiftTimeService, parse);
      if prepared.Thrown? {
        return Failure(prepared.message);
      }
      var newReport := NewRecord(request, prepared.value, newPuid, now, formDataJson);
      repository.Add(newReport);
      repository.Save();
      return Success(GuidToString(newReport.puid));
    }
  }
}
