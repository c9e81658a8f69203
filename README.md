# TeraLinkaCareApi core, modelled in Dafny

This project models the decision logic of five parts of the TeraLinkaCareApi
nursing-care back end, and proves properties about that logic:

- **Case-record command** (`InsertCaseRecordCommand`). The command parses the
  case time as an exact `yyyyMMddHHmmss` stamp. When the form names a clinical
  unit, it fetches the unit and its shifts and asks the shift resolver for the
  shift and clinical date. Then it builds a `PtCaseRecord`, adds it to the
  repository and saves. Every exception becomes `Result.Failure(message)`.
- **Shift controller** (`ClinicalUnitShiftController`). `GetClinicalUnitByShiftId`
  is a two-step lookup: the shift, then its unit. The diagnostic
  `TestShiftsByTime` endpoint guards on empty snapshots, then resolves a fixed
  list of sample instants.
- **DICOM patient controller** (`DicomPatientController.GetByPatientId`). It
  validates the id, answers NotFound when nothing matches, and otherwise
  projects the first matching row into an `A_PtEncounter`. The projection trims
  text, reads the birth date as exact `yyyyMMdd`, and takes `UpdateTime` from the
  modification time, falling back to the creation time.
- **DICOM study controller** (`DicomStudyController`). One action filters the
  study view on patient id and accession number and projects the first match.
  The parameterless action passes every row through.
- **Cases-by-patient query** (`GetCasesByPatientQueryHandler.Handle`). It joins
  cases with case types (inner join) and body locations (left join), keeps the
  requested patient and encounter, and decorates every mapped DTO. Then it
  groups the DTOs into a dictionary keyed by location label, with "Unknown" as
  the default key.

Several inputs are parameters rather than code. The shift resolver
`ShiftTimeService.DetermineShiftAndTime` is the function type
`UnitShifts.ShiftResolver`. The unit/shift fetches of `UnitShiftService` are
functions returning rows or a store error. Culture-dependent
`DateTime.Parse`/`TryParse` is `Calendar.DateParser`. The object mapper is
`GetCasesByPatient.CaseMapper`. `Guid.NewGuid()`, `DateTime.Now` and the
serialized form payload are plain arguments. Tables are in-memory sequences,
passed in as snapshots.

The imperative parts keep their form:
- `InsertCaseRecord.ProcessDateTimeAndShiftInfo` assigns its locals step by step
  and returns early. It is proved equal to the decision function
  `PrepareShiftInfo`, and the properties are lemmas about `PrepareShiftInfo`.
- The repository is a class whose `tracked` and `stored` sequences are changed
  by `Add` and `Save`.
- The diagnostic loop is a `while` loop with its invariants.

The generic pieces live in their own modules:
- `Seqs`: filter and flatten (the C# `Where` and `SelectMany`).
- `Text`: `Trim` and the null/empty/white-space tests.
- `Calendar`: the exact fixed-width date formats, with round-trip lemmas.
- `Guids`: the lower-case 8-4-4-4-12 rendering of a `Guid`.
- `Grouping`: LINQ `GroupBy` and `ToDictionary`, proved against an independent
  per-key reference definition.

## Model

| member | source | states |
|---|---|---|
| InsertCaseRecord.ProcessDateTimeAndShiftInfo | src/Application/UseCases/CaseRecords/Commands/InsertCaseRecord/InsertCaseRecordCommand.cs:121-182 | The step-by-step preparation returns or throws exactly what the decision function `PrepareShiftInfo` prescribes. `PrepareShiftInfo` has no contract of its own; its properties are the lemmas in the next rows. |
| InsertCaseRecord.InvalidCaseDateTimeFails | src/Application/UseCases/CaseRecords/Commands/InsertCaseRecord/InsertCaseRecordCommand.cs:128-139 | A missing case time, or one that is not an exact 14-digit valid stamp, throws "Invalid CaseDateTime format", whatever the catalog, resolver and parser do. |
| InsertCaseRecord.ObservationIsCaseDateTime | src/Application/UseCases/CaseRecords/Commands/InsertCaseRecord/InsertCaseRecordCommand.cs:142 | On success the observation time is the parsed case time. It is a valid date-time, and its canonical rendering is the input text. |
| InsertCaseRecord.NoUnitSkipsResolver | src/Application/UseCases/CaseRecords/Commands/InsertCaseRecord/InsertCaseRecordCommand.cs:147-150 | With an absent or empty unit id, the outcome is the same for every service, resolver and parser, and a success carries no shift date and no shift id. |
| InsertCaseRecord.UnresolvedShiftFails | src/Application/UseCases/CaseRecords/Commands/InsertCaseRecord/InsertCaseRecordCommand.cs:161-171 | When the resolver returns null for the fetched snapshot, the preparation throws the "cannot determine shift" message. |
| InsertCaseRecord.ResolvedShiftInfo | src/Application/UseCases/CaseRecords/Commands/InsertCaseRecord/InsertCaseRecordCommand.cs:152-179 | With a unit id, a success comes from the resolver called with the case time, the units and shifts fetched for that id, and that id as the selected unit. The shift id is the resolver's. The shift date is present iff the resolver's clinical date is non-null and non-empty, and is then that string parsed. |
| InsertCaseRecord.StoreFailurePropagates | src/Application/UseCases/CaseRecords/Commands/InsertCaseRecord/InsertCaseRecordCommand.cs:155-158 | A store failure while fetching the unit, or while fetching its shifts after the unit was read, surfaces as the thrown message. |
| InsertCaseRecord.PersistedRecordFields | src/Application/UseCases/CaseRecords/Commands/InsertCaseRecord/InsertCaseRecordCommand.cs:53-64 | The record `NewRecord` builds carries the new id, the case id, the form definition id, the user as care provider, the current time and the serialized payload. Its observation time, shift date and shift id are the prepared ones, and the observation time renders back to the case-time text. Without a unit there is no shift date and no shift id. With a unit the shift id is the resolver's, and a shift date is present iff the resolver's clinical date is non-empty. |
| InsertCaseRecord.CaseRecordRepository.Add | src/Application/UseCases/CaseRecords/Commands/InsertCaseRecord/InsertCaseRecordCommand.cs:67 | Appends the record to the tracked records and leaves the stored ones unchanged. |
| InsertCaseRecord.CaseRecordRepository.Save | src/Application/UseCases/CaseRecords/Commands/InsertCaseRecord/InsertCaseRecordCommand.cs:68 | Commits the tracked records after the stored ones and clears the tracked list. |
| InsertCaseRecord.InsertCaseRecordCommandHandler.Handle | src/Application/UseCases/CaseRecords/Commands/InsertCaseRecord/InsertCaseRecordCommand.cs:41-119 | Every thrown message becomes `Failure(message)` and leaves both repository lists unchanged. On success exactly one new record, the one built from the request and the prepared info, is committed after what was there, and its id is returned as text. |
| ClinicalUnitShiftController.ShiftById | src/API/Controllers/ClinicalUnitShiftController.cs:40 | The lookup is null iff no shift row has the id; otherwise it returns a row of the table with that id. |
| Seqs.Find | src/API/Controllers/ClinicalUnitShiftController.cs:40 | The lookup is null iff no element satisfies the condition; otherwise it is the first element that does. |
| ClinicalUnitShiftController.UnitById | src/API/Controllers/ClinicalUnitShiftController.cs:46 | The lookup is null iff no unit row has the id; otherwise it returns a row of the table with that id. |
| ClinicalUnitShiftController.GetClinicalUnitByShiftId | src/API/Controllers/ClinicalUnitShiftController.cs:38-53 | An unknown shift gives NotFound with its message. A shift whose unit is missing gives NotFound with the other message. When both exist the result is Ok with the unit whose id is the shift's unit id. Nothing else is returned. |
| ClinicalUnitShiftController.CollectShiftResults | src/API/Controllers/ClinicalUnitShiftController.cs:93-125 | One entry per test time, in order. Entry i is the resolver's answer (or null) for test time i, with the same unit and shift snapshot and the same unit id. |
| ClinicalUnitShiftController.TestShiftsByTime | src/API/Controllers/ClinicalUnitShiftController.cs:58-128 | BadRequest when no unit has the id. BadRequest when the unit has no shifts. Otherwise Ok with exactly one entry: the resolver's answer for 2025-06-11 07:00:00. (Corrected form, see Findings.) |
| ClinicalUnitShiftController.CollectShiftResultsAsWritten | src/API/Controllers/ClinicalUnitShiftController.cs:93-125 | The loop as written keeps an entry only when its unused clinical-date parse does not throw. |
| ClinicalUnitShiftController.TestShiftsByTimeAsWritten | src/API/Controllers/ClinicalUnitShiftController.cs:58-128 | Same guards as the corrected form; the Ok list is the entries the as-written loop keeps. |
| ClinicalUnitShiftController.SurvivingResultsComplete | src/API/Controllers/ClinicalUnitShiftController.cs:114-119 | The as-written list is never longer than the test times. It has one entry per test time iff no resolved clinical date is rejected by the parser. |
| ClinicalUnitShiftController.DroppedEntryExample | src/API/Controllers/ClinicalUnitShiftController.cs:114-117 | A resolver answering with clinical date "n/a" makes the as-written endpoint return an empty list for its single test time. |
| UnitShifts.UnitsWithPuid | src/API/Controllers/ClinicalUnitShiftController.cs:61 | Every returned row is a table row with the id, and every table row with the id is returned; the result is empty iff no row has the id. |
| UnitShifts.ShiftsOfUnit | src/API/Controllers/ClinicalUnitShiftController.cs:71 | Every returned shift is a table row of the unit, and every shift of the unit is returned; the result is empty iff the unit has no shift. |
| DicomPatientController.GetByPatientId | src/API/Controllers/DicomPatientController.cs:36-85 | A null or white-space id gives BadRequest. A store failure gives status 500. No match gives NotFound, and a match gives Ok. Ok is the projection of the first matching row: its life-time number is the trimmed id and non-empty, its first name is "" and it has no encounter number. |
| DicomPatientController.PatientsWithId | src/API/Controllers/DicomPatientController.cs:46-47 | The matches are table rows with the id, every row with the id is among them, and they are empty iff no row has the id. |
| DicomPatientController.ProjectPatientFields | src/API/Controllers/DicomPatientController.cs:55-76 | The projection `ProjectPatient`: the life-time number is the patient id with only white space cut from either end, and is empty only for a blank id. The last name is the trimmed name, or null with it. The first name is "" and there is no encounter number. Sex and national id are copied. The birth date is the exact `yyyyMMdd` reading at midnight, or null. The update time follows the fallback chain. |
| DicomPatientController.UpdateTime | src/API/Controllers/DicomPatientController.cs:69-74 | A non-empty modification time that parses is used. Otherwise the creation time is parsed. A present result is always the parse of one of the two texts. |
| PtEncounter.BirthDate | src/API/Controllers/DicomPatientController.cs:64-67 | A birth date is present iff the text is an exact valid `yyyyMMdd` date. It is then that parse, at midnight, and renders back to the text. Otherwise null, never an error. |
| DicomStudyController.StudiesMatching | src/API/Controllers/DicomStudyController.cs:39-40 | Every returned row is a table row matching both patient id and accession number, every matching row is returned, and the result is empty iff no row matches. |
| DicomStudyController.ProjectStudyFields | src/API/Controllers/DicomStudyController.cs:49-62 | The projection `ProjectStudy`: life-time number and encounter number are the patient id and the accession number with only white space cut from either end. The last name is the trimmed name, or null with it. The first name is "". Sex and national id are copied. The birth date is the exact `yyyyMMdd` reading at midnight, or null. There is no update time. |
| DicomStudyController.GetStudyLevelView | src/API/Controllers/DicomStudyController.cs:35-69 | A store failure gives 500. No match gives NotFound, and a match gives Ok. Ok is the projection of the first matching row, with the trimmed patient id, the trimmed accession number as encounter number, first name "" and no update time. Nothing else is returned. |
| DicomStudyController.GetAllStudyLevelViews | src/API/Controllers/DicomStudyController.cs:77-96 | A store failure gives 500. An empty table gives NotFound. Otherwise Ok with every row unchanged. |
| GetCasesByPatient.LocationChoices | src/Application/UseCases/Cases/Queries/GetCasesByPatient/GetCasesByPatientQuery.cs:36-37 | `DefaultIfEmpty` over the joined body locations: never empty. Every present choice is a joining location. Every joining location is a choice. With no joining location the choices are exactly one null. |
| GetCasesByPatient.QueryRowsSound | src/Application/UseCases/Cases/Queries/GetCasesByPatient/GetCasesByPatientQuery.cs:32-47 | Every row of the query `CaseRows` comes from a case of the requested patient and encounter, joined with a matching case type and with a matching body location or none. |
| GetCasesByPatient.LeftJoinKeepsCase | src/Application/UseCases/Cases/Queries/GetCasesByPatient/GetCasesByPatientQuery.cs:34-40 | A requested case with a matching case type yields a row for every matching body location. With none it still yields a row with a null SVG id. |
| GetCasesByPatient.DroppedCase | src/Application/UseCases/Cases/Queries/GetCasesByPatient/GetCasesByPatientQuery.cs:34-40 | A case of another patient or encounter, or with no matching case type, yields no row. |
| GetCasesByPatient.Decorate | src/Application/UseCases/Cases/Queries/GetCasesByPatient/GetCasesByPatientQuery.cs:51-59 | The DTO takes both labels from the row, the SVG id or "Unknown", and is closed iff a close time is set. Every other field is the mapper's. |
| GetCasesByPatient.Handle | src/Application/UseCases/Cases/Queries/GetCasesByPatient/GetCasesByPatientQuery.cs:25-71 | A store failure gives `Failure("獲取案例失敗: " + message)`. Otherwise Success with a dictionary whose keys are exactly the DTOs' location keys (label or "Unknown"). Each key maps to the non-empty list of DTOs with that key, in query order. |
| GetCasesByPatient.CaseDtoFacts | src/Application/UseCases/Cases/Queries/GetCasesByPatient/GetCasesByPatientQuery.cs:38-57 | Each DTO belongs to a requested case and has as key its location label or "Unknown". It is closed iff a close time is set, and its case-type label is that of a joining case type. Its SVG id is "Unknown" when no location joins, otherwise a joining location's id or "Unknown". |
| GetCasesByPatient.CaseGroupsPartition | src/Application/UseCases/Cases/Queries/GetCasesByPatient/GetCasesByPatientQuery.cs:61-63 | Every DTO is in the group of its key, every group holds only DTOs of its key, and the group sizes add up to the number of DTOs. |
| Grouping.GroupByMatchesReference | src/Application/UseCases/Cases/Queries/GetCasesByPatient/GetCasesByPatientQuery.cs:61-62 | The scan `GroupBy` yields the distinct keys in first-occurrence order. Each group holds exactly the elements with its key, in source order. |
| Grouping.GroupByDistinctKeys | src/Application/UseCases/Cases/Queries/GetCasesByPatient/GetCasesByPatientQuery.cs:61-62 | No two groups share a key. |
| Grouping.GroupByPlacesEveryElement | src/Application/UseCases/Cases/Queries/GetCasesByPatient/GetCasesByPatientQuery.cs:61-62 | No group is empty, and the group keys are exactly the keys of the elements. |
| Grouping.GroupBySizes | src/Application/UseCases/Cases/Queries/GetCasesByPatient/GetCasesByPatientQuery.cs:61-62 | The group sizes add up to the number of elements. |
| Grouping.WithKeyConcat | src/Application/UseCases/Cases/Queries/GetCasesByPatient/GetCasesByPatientQuery.cs:61-62 | Selecting a key's elements commutes with concatenation, so a group keeps the source order. |
| Grouping.ToDictionary | src/Application/UseCases/Cases/Queries/GetCasesByPatient/GetCasesByPatientQuery.cs:63 | With distinct keys, the dictionary's keys are the group keys and each maps to its group's items. |
| Grouping.GroupedDictionary | src/Application/UseCases/Cases/Queries/GetCasesByPatient/GetCasesByPatientQuery.cs:61-63 | The grouped dictionary's keys are the elements' keys, and each maps to the non-empty list of elements with that key. |
| Grouping.DictionaryMembership | src/Application/UseCases/Cases/Queries/GetCasesByPatient/GetCasesByPatientQuery.cs:61-63 | Every element is in the entry of its key, and every entry holds only elements of that key. |
| Calendar.CompactDateTimeRoundTrip | src/Application/UseCases/CaseRecords/Commands/InsertCaseRecord/InsertCaseRecordCommand.cs:128-135 | Every valid date-time renders to 14 digits that `ParseCompactDateTime` reads back to it. |
| Calendar.CompactDateTimeCanonical | src/Application/UseCases/CaseRecords/Commands/InsertCaseRecord/InsertCaseRecordCommand.cs:128-135 | Text that `ParseCompactDateTime` accepts as `yyyyMMddHHmmss` is the rendering of the valid date-time it reads. |
| Calendar.CompactDateRoundTrip | src/API/Controllers/DicomPatientController.cs:64-67 | Every valid date at midnight renders to 8 digits that `ParseCompactDate` reads back to it. |
| Calendar.CompactDateCanonical | src/API/Controllers/DicomPatientController.cs:64-67 | Text that `ParseCompactDate` accepts as `yyyyMMdd` is the rendering of a valid date at midnight. |
| Calendar.TryParse | src/API/Controllers/DicomPatientController.cs:69-74 | `TryParse` yields a value iff the text is present and the parser accepts it, and the value is then the parser's. |
| Text.TrimIsCoreSlice | src/API/Controllers/DicomPatientController.cs:59 | The trimmed text is a slice of the input with only white space before and after it, and a non-empty result neither starts nor ends with white space. |
| Text.TrimIdempotent | src/API/Controllers/DicomPatientController.cs:59 | Trimming twice equals trimming once. |
| Text.WhiteSpaceIffTrimEmpty | src/API/Controllers/DicomPatientController.cs:40 | A text is all white space iff its trim is empty. |
| Guids.GuidToString | src/Application/UseCases/CaseRecords/Commands/InsertCaseRecord/InsertCaseRecordCommand.cs:113 | A Guid renders as 36 characters with hyphens at positions 8, 13, 18 and 23. |
| Guids.DigitAtPosition | src/Application/UseCases/CaseRecords/Commands/InsertCaseRecord/InsertCaseRecordCommand.cs:113 | Every other position holds the lower-case hex digit of the Guid's corresponding nibble, in display order. |
| Guids.GuidToStringInjective | src/Application/UseCases/CaseRecords/Commands/InsertCaseRecord/InsertCaseRecordCommand.cs:113 | Distinct ids render to distinct strings, so the returned text identifies the stored record. |
| Seqs.FilterHead | src/API/Controllers/DicomPatientController.cs:47-76 | The first element of a filtered sequence is the first matching element of the source. |
| Seqs.Filter | src/API/Controllers/DicomPatientController.cs:46-47 | `Where` returns only elements that satisfy the condition, returns every element that does, and is no longer than its input. |

## Left out

- `ShiftTimeService.DetermineShiftAndTime` and the queries of
  `UnitShiftService` are not part of this model. They are parameters, and no
  shift-window or date-rollback rule is assumed.
- Culture-dependent `DateTime.Parse` and `DateTime.TryParse` are a parameter
  that accepts or rejects a text. Culture, time zones and date-time kinds are
  not modelled.
- The exact `yyyyMMddHHmmss` parse of the case time uses the invariant culture,
  which the model renders as the proleptic Gregorian calendar with years 1 to
  9999 and ASCII digits.
- The exact `yyyyMMdd` parse of the birth date passes a null format provider,
  which means the current culture. The model assumes that culture's calendar is
  Gregorian, read the same way as the invariant culture. A server culture with
  another calendar is not modelled.
- Strings are sequences of Dafny characters. UTF-16 surrogates are not
  distinguished, and white space is the set of characters listed in `Text`.
- EF Core query translation, SQL collation and row order are not modelled. The
  query's rows come out in the order LINQ to objects would produce (cases, then
  case types, then body locations). SQL null semantics are kept: a null key joins
  no row.
- The AutoMapper `Map<CaseDto>` call is a parameter, and exceptions it might
  throw are not modelled.
- `JsonSerializer.Serialize` of the form payload is a parameter holding its text.
- `Guid.NewGuid()` and `DateTime.Now` are parameters.
- `async`/`Task`, cancellation tokens, logging and the authorization attributes
  are not modelled.
- In `TestShiftsByTime`, an exception thrown while the unit or shift snapshots
  are read goes to the framework's error handling, which is not modelled. The
  tables are plain inputs.
- The process-wide effect of the exception that escapes the `async void` lambda
  in `TestShiftsByTime` is not modelled; only the missing entry is.
- Failures of `AddAsync`/`SaveAsync` themselves are not modelled; the repository
  methods always succeed.
- Only the `A_PtEncounter` properties the projections assign are datatype fields;
  the entity's other properties stay null in both projections.
- `TestShiftsByTime`: the model does not show that the shift table is left
  unread when the unit is unknown, only that the result then does not depend on it.
- `EnvConfigController.cs` and `Program.cs` are not part of this model: one
  returns four tables verbatim, the other is framework configuration.

## Findings

| source | as written | input that shows it | evidently intended | confidence | as-written member | corrected member |
|---|---|---|---|---|---|---|
| src/API/Controllers/ClinicalUnitShiftController.cs:93-125 | The loop body is an `async` lambda given to `List.ForEach`, so it runs as `async void`. Inside it, `DateTime.Parse` reads the resolver's clinical date into a variable no one uses, before `Add`. When that parse throws, the exception leaves the lambda and the entry is never added. | a resolver that answers with clinical date "n/a" for the unit | one entry per test time, holding the resolver's answer or null | not executed | ClinicalUnitShiftController.TestShiftsByTimeAsWritten | ClinicalUnitShiftController.TestShiftsByTime |
