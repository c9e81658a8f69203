/** The handler that lists a patient's cases for one encounter, grouped by
    body-location label (`GetCasesByPatientQueryHandler.Handle`). */
module GetCasesByPatient {
  import opened Wrappers
  import opened Guids
  import opened Calendar
  import opened Seqs
  import opened Grouping

  datatype GetCasesByPatientQuery = GetCasesByPatientQuery(patientId: string, encounterId: string)

  /** A row of `PT_Case`, reduced to the columns the query reads. */
  datatype PtCase = PtCase(
    puid: Guid,
    lifeTimeNumber: Option<string>,
    encounterNumber: Option<string>,
    caseTypePuid: Option<Guid>,
    caseLocation: Option<string>,
    caseCloseTime: Option<DateTime>)

  datatype CfgCaseType = CfgCaseType(puid: Guid, caseTypeShortLabel: Option<string>)

  datatype CfgBodyLocation = CfgBodyLocation(nisLocationLabel: Option<string>, svgGraphicId: Option<string>)

  /** The three tables as one snapshot. */
  datatype CaseTables = CaseTables(
    ptCases: seq<PtCase>,
    caseTypes: seq<CfgCaseType>,
    bodyLocations: seq<CfgBodyLocation>)

  /** The anonymous object the query selects. */
  datatype CaseRow = CaseRow(
    caseItem: PtCase,
    locationLabel: Option<string>,
    locationSvgId: Option<string>,
    caseTypeShortLabel: Option<string>)

  datatype CaseDto = CaseDto(
    puid: Guid,
    lifeTimeNumber: Option<string>,
    encounterNumber: Option<string>,
    caseCloseTime: Option<DateTime>,
    locationLabel: Option<string>,
    locationSvgId: string,
    caseTypeShortLabel: Option<string>,
    isCaseClosed: bool)

  /** The object mapper's `Map<CaseDto>(PtCase)`; its configuration is not part of this model. */
  type CaseMapper = PtCase -> CaseDto

  const UnknownLabel: string := "Unknown"
  const FailurePrefix: string := "獲取案例失敗: "

  /** The `where` clause. */
  predicate BelongsTo(c: PtCase, request: GetCasesByPatientQuery) {
    c.lifeTimeNumber == Some(request.patientId) && c.encounterNumber == Some(request.encounterId)
  }

  /** The inner join condition; a null key matches no row, as in SQL. */
  predicate TypeJoins(c: PtCase, ct: CfgCaseType) {
    c.caseTypePuid == Some(ct.puid)
  }

  /** The left join condition; a null label matches no row, as in SQL. */
  predicate LocationJoins(c: PtCase, bl: CfgBodyLocation) {
    c.caseLocation.Some? && bl.nisLocationLabel == c.caseLocation
  }

  function AllSome<T>(s: seq<T>): (r: seq<Option<T>>)
    ensures |r| == |s|
    ensures forall i :: 0 <= i < |s| ==> r[i] == Some(s[i])
  {
    if s == [] then [] else [Some(s[0])] + AllSome(s[1..])
  }

  /** `join … into bodyLocationGroup from bodyLocation in bodyLocationGroup.DefaultIfEmpty()`:
      the matching body locations, or a single null when there is none. */
  function LocationChoices(c: PtCase, bls: seq<CfgBodyLocation>): (r: seq<Option<CfgBodyLocation>>)
    ensures r != []
    ensures forall m :: 0 <= m < |r| && r[m].Some? ==> r[m].value in bls && LocationJoins(c, r[m].value)
    ensures forall m :: 0 <= m < |r| && r[m].None? ==> forall k :: 0 <= k < |bls| ==> !LocationJoins(c, bls[k])
    ensures forall k :: 0 <= k < |bls| && LocationJoins(c, bls[k]) ==> Some(bls[k]) in r
    ensures (forall k :: 0 <= k < |bls| ==> !LocationJoins(c, bls[k])) ==> r == [None]
  {
    var matching := Filter(bls, bl => LocationJoins(c, bl));
    FilterEmpty(bls, bl => LocationJoins(c, bl));
    if matching == [] then [None]
    else
      var r := AllSome(matching);
      assert forall k :: 0 <= k < |bls| && LocationJoins(c, bls[k]) ==> Some(bls[k]) in r by {
        forall k | 0 <= k < |bls| && LocationJoins(c, bls[k]) ensures Some(bls[k]) in r {
          var m :| 0 <= m < |matching| && matching[m] == bls[k];
          assert r[m] == Some(bls[k]);
        }
      }
      r
  }

  /** The row selected for one case, case type and body location (or null). */
  function RowFor(c: PtCase, ct: CfgCaseType, bl: Option<CfgBodyLocation>): CaseRow {
    CaseRow(c, c.caseLocation, if bl.Some? then bl.value.svgGraphicId else None, ct.caseTypeShortLabel)
  }

  function RowsWithType(c: PtCase, ct: CfgCaseType, choices: seq<Option<CfgBodyLocation>>): (r: seq<CaseRow>)
    ensures |r| == |choices|
    ensures forall m :: 0 <= m < |choices| ==> r[m] == RowFor(c, ct, choices[m])
  {
    if choices == [] then [] else [RowFor(c, ct, choices[0])] + RowsWithType(c, ct, choices[1..])
  }

  /** For each case type in turn, the rows it contributes to one case. */
  function RowsPerType(c: PtCase, cts: seq<CfgCaseType>, choices: seq<Option<CfgBodyLocation>>): (r: seq<seq<CaseRow>>)
    ensures |r| == |cts|
    ensures forall j :: 0 <= j < |cts| ==> r[j] == if TypeJoins(c, cts[j]) then RowsWithType(c, cts[j], choices) else []
  {
    if cts == [] then []
    else [if TypeJoins(c, cts[0]) then RowsWithType(c, cts[0], choices) else []] + RowsPerType(c, cts[1..], choices)
  }

  /** The rows of one case: joined with every matching case type, then with its body locations. */
  function RowsForCase(c: PtCase, cts: seq<CfgCaseType>, choices: seq<Option<CfgBodyLocation>>): seq<CaseRow> {
    Flatten(RowsPerType(c, cts, choices))
  }

  /** The rows contributed by one case: none unless it passes the `where` clause. */
  function RowsOfCase(c: PtCase, t: CaseTables, request: GetCasesByPatientQuery): seq<CaseRow> {
    if BelongsTo(c, request) then RowsForCase(c, t.caseTypes, LocationChoices(c, t.bodyLocations)) else []
  }

  /** For each case in turn, the rows it contributes. */
  function RowsPerCase(cases: seq<PtCase>, t: CaseTables, request: GetCasesByPatientQuery): (r: seq<seq<CaseRow>>)
    ensures |r| == |cases|
    ensures forall i :: 0 <= i < |cases| ==> r[i] == RowsOfCase(cases[i], t, request)
  {
    if cases == [] then [] else [RowsOfCase(cases[0], t, request)] + RowsPerCase(cases[1..], t, request)
  }

  /** The query as LINQ to objects evaluates it over the snapshot. */
  function CaseRows(t: CaseTables, request: GetCasesByPatientQuery): seq<CaseRow> {
    Flatten(RowsPerCase(t.ptCases, t, request))
  }

  lemma RowsForCaseSound(c: PtCase, cts: seq<CfgCaseType>, choices: seq<Option<CfgBodyLocation>>, row: CaseRow)
    requires row in RowsForCase(c, cts, choices)
    ensures exists j, m :: 0 <= j < |cts| && 0 <= m < |choices| && TypeJoins(c, cts[j]) &&
                           row == RowFor(c, cts[j], choices[m])
  {
    var lists := RowsPerType(c, cts, choices);
    FlattenSound(lists);
    var n :| 0 <= n < |Flatten(lists)| && Flatten(lists)[n] == row;
    var j :| 0 <= j < |lists| && row in lists[j];
    var m :| 0 <= m < |lists[j]| && lists[j][m] == row;
  }

  lemma RowsForCaseComplete(c: PtCase, cts: seq<CfgCaseType>, choices: seq<Option<CfgBodyLocation>>, j: nat, m: nat)
    requires j < |cts| && m < |choices| && TypeJoins(c, cts[j])
    ensures RowFor(c, cts[j], choices[m]) in RowsForCase(c, cts, choices)
  {
    var lists := RowsPerType(c, cts, choices);
    FlattenComplete(lists);
    assert lists[j][m] == RowFor(c, cts[j], choices[m]);
  }

  lemma CaseRowsSound(t: CaseTables, request: GetCasesByPatientQuery, row: CaseRow)
    requires row in CaseRows(t, request)
    ensures exists i :: 0 <= i < |t.ptCases| && BelongsTo(t.ptCases[i], request) &&
                        row in RowsForCase(t.ptCases[i], t.caseTypes, LocationChoices(t.ptCases[i], t.bodyLocations))
  {
    var lists := RowsPerCase(t.ptCases, t, request);
    FlattenSound(lists);
    var n :| 0 <= n < |Flatten(lists)| && Flatten(lists)[n] == row;
    var i :| 0 <= i < |lists| && row in lists[i];
    assert lists[i] == RowsOfCase(t.ptCases[i], t, request);
  }

  lemma CaseRowsComplete(t: CaseTables, request: GetCasesByPatientQuery, i: nat, row: CaseRow)
    requires i < |t.ptCases| && BelongsTo(t.ptCases[i], request)
    requires row in RowsForCase(t.ptCases[i], t.caseTypes, LocationChoices(t.ptCases[i], t.bodyLocations))
    ensures row in CaseRows(t, request)
  {
    var lists := RowsPerCase(t.ptCases, t, request);
    FlattenComplete(lists);
    assert row in lists[i];
  }

  /** A row is explained by a requested case, a case type it joins and the
      body location it joins (or null when it joins none). */
  ghost predicate Justified(row: CaseRow, t: CaseTables, request: GetCasesByPatientQuery) {
    var c := row.caseItem;
    (exists i :: 0 <= i < |t.ptCases| && t.ptCases[i] == c) &&
    BelongsTo(c, request) &&
    (exists j :: 0 <= j < |t.caseTypes| && TypeJoins(c, t.caseTypes[j]) &&
                 row.caseTypeShortLabel == t.caseTypes[j].caseTypeShortLabel) &&
    row.locationLabel == c.caseLocation &&
    (if exists k :: 0 <= k < |t.bodyLocations| && LocationJoins(c, t.bodyLocations[k])
     then exists k :: 0 <= k < |t.bodyLocations| && LocationJoins(c, t.bodyLocations[k]) &&
                      row.locationSvgId == t.bodyLocations[k].svgGraphicId
     else row.locationSvgId == None)
  }

  lemma RowForJustified(t: CaseTables, request: GetCasesByPatientQuery, i: nat, j: nat, m: nat)
    requires i < |t.ptCases| && BelongsTo(t.ptCases[i], request)
    requires j < |t.caseTypes| && TypeJoins(t.ptCases[i], t.caseTypes[j])
    requires m < |LocationChoices(t.ptCases[i], t.bodyLocations)|
    ensures Justified(RowFor(t.ptCases[i], t.caseTypes[j], LocationChoices(t.ptCases[i], t.bodyLocations)[m]), t, request)
  {
    var c := t.ptCases[i];
    var choice := LocationChoices(c, t.bodyLocations)[m];
    if choice.Some? {
      var k :| 0 <= k < |t.bodyLocations| && t.bodyLocations[k] == choice.value;
      assert LocationJoins(c, t.bodyLocations[k]);
    }
  }

  /** Every row comes from a requested case joined with a case type and,
      when one matches, a body location. */
  lemma QueryRowsSound(t: CaseTables, request: GetCasesByPatientQuery)
    ensures forall n :: 0 <= n < |CaseRows(t, request)| ==> Justified(CaseRows(t, request)[n], t, request)
  {
    var rows := CaseRows(t, request);
    forall n | 0 <= n < |rows| ensures Justified(rows[n], t, request) {
      CaseRowsSound(t, request, rows[n]);
      var i :| 0 <= i < |t.ptCases| && BelongsTo(t.ptCases[i], request) &&
               rows[n] in RowsForCase(t.ptCases[i], t.caseTypes, LocationChoices(t.ptCases[i], t.bodyLocations));
      var choices := LocationChoices(t.ptCases[i], t.bodyLocations);
      RowsForCaseSound(t.ptCases[i], t.caseTypes, choices, rows[n]);
      var j, m :| 0 <= j < |t.caseTypes| && 0 <= m < |choices| && TypeJoins(t.ptCases[i], t.caseTypes[j]) &&
                  rows[n] == RowFor(t.ptCases[i], t.caseTypes[j], choices[m]);
      RowForJustified(t, request, i, j, m);
    }
  }

  /** Left join: a requested case with a case type is kept whether or not a
      body location matches; with none it appears once per case type with a null SVG id. */
  lemma LeftJoinKeepsCase(t: CaseTables, request: GetCasesByPatientQuery, i: nat, j: nat)
    requires i < |t.ptCases| && j < |t.caseTypes|
    requires BelongsTo(t.ptCases[i], request) && TypeJoins(t.ptCases[i], t.caseTypes[j])
    ensures forall k :: 0 <= k < |t.bodyLocations| && LocationJoins(t.ptCases[i], t.bodyLocations[k]) ==>
              RowFor(t.ptCases[i], t.caseTypes[j], Some(t.bodyLocations[k])) in CaseRows(t, request)
    ensures (forall k :: 0 <= k < |t.bodyLocations| ==> !LocationJoins(t.ptCases[i], t.bodyLocations[k])) ==>
              CaseRow(t.ptCases[i], t.ptCases[i].caseLocation, None, t.caseTypes[j].caseTypeShortLabel) in CaseRows(t, request)
  {
    var c := t.ptCases[i];
    var choices := LocationChoices(c, t.bodyLocations);
    forall k | 0 <= k < |t.bodyLocations| && LocationJoins(c, t.bodyLocations[k])
      ensures RowFor(c, t.caseTypes[j], Some(t.bodyLocations[k])) in CaseRows(t, request)
    {
      var m :| 0 <= m < |choices| && choices[m] == Some(t.bodyLocations[k]);
      RowsForCaseComplete(c, t.caseTypes, choices, j, m);
      CaseRowsComplete(t, request, i, RowFor(c, t.caseTypes[j], choices[m]));
    }
    if forall k :: 0 <= k < |t.bodyLocations| ==> !LocationJoins(c, t.bodyLocations[k]) {
      assert choices[0] == None;
      RowsForCaseComplete(c, t.caseTypes, choices, j, 0);
      CaseRowsComplete(t, request, i, RowFor(c, t.caseTypes[j], choices[0]));
    }
  }

  /** Inner join and filter: a case with no matching case type, or of another
      patient or encounter, yields no row. */
  lemma DroppedCase(t: CaseTables, request: GetCasesByPatientQuery, c: PtCase)
    requires !BelongsTo(c, request) || forall j :: 0 <= j < |t.caseTypes| ==> !TypeJoins(c, t.caseTypes[j])
    ensures forall n :: 0 <= n < |CaseRows(t, request)| ==> CaseRows(t, request)[n].caseItem != c
  {
    QueryRowsSound(t, request);
  }

  /** The `Select` lambda: the mapped DTO with four fields assigned in turn. */
  function Decorate(mapper: CaseMapper, row: CaseRow): (dto: CaseDto)
    ensures dto.locationLabel == row.locationLabel && dto.caseTypeShortLabel == row.caseTypeShortLabel
    ensures dto.locationSvgId == if row.locationSvgId.Some? then row.locationSvgId.value else UnknownLabel
    ensures dto.isCaseClosed <==> row.caseItem.caseCloseTime.Some?
    ensures var m := mapper(row.caseItem);
            dto.(locationLabel := m.locationLabel, locationSvgId := m.locationSvgId,
                 caseTypeShortLabel := m.caseTypeShortLabel, isCaseClosed := m.isCaseClosed) == m
  {
    var dto := mapper(row.caseItem);
    var dto := dto.(locationLabel := row.locationLabel);
    var dto := dto.(locationSvgId := row.locationSvgId.GetOr(UnknownLabel));
    var dto := dto.(caseTypeShortLabel := row.caseTypeShortLabel);
    dto.(isCaseClosed := row.caseItem.caseCloseTime.Some?)
  }

  function DecorateAll(mapper: CaseMapper, rows: seq<CaseRow>): (dtos: seq<CaseDto>)
    ensures |dtos| == |rows|
    ensures forall n :: 0 <= n < |rows| ==> dtos[n] == Decorate(mapper, rows[n])
  {
    if rows == [] then [] else [Decorate(mapper, rows[0])] + DecorateAll(mapper, rows[1..])
  }

  /** The grouping key `LocationLabel ?? "Unknown"`. */
  function LocationKey(dto: CaseDto): string {
    dto.locationLabel.GetOr(UnknownLabel)
  }

  function CaseDtos(t: CaseTables, request: GetCasesByPatientQuery, mapper: CaseMapper): seq<CaseDto> {
    DecorateAll(mapper, CaseRows(t, request))
  }

  /** `Handle`: a store failure becomes a `Failure` with the prefixed message;
      otherwise a dictionary from each location key to the DTOs with that key,
      in query order. */
  function Handle(request: GetCasesByPatientQuery, db: Fetch<CaseTables>, mapper: CaseMapper)
    : (r: Result<map<string, seq<CaseDto>>>)
    ensures db.StoreError? ==> r == Failure(FailurePrefix + db.message)
    ensures db.Rows? ==> r.Success?
    ensures db.Rows? ==>
              var dtos := CaseDtos(db.rows, request, mapper);
              r.value.Keys == (set n | 0 <= n < |dtos| :: LocationKey(dtos[n])) &&
              forall k :: k in r.value ==> r.value[k] == WithKey(dtos, LocationKey, k) && r.value[k] != []
  {
    match db
    case StoreError(message) => Failure(FailurePrefix + message)
    case Rows(t) =>
      var dtos := CaseDtos(t, request, mapper);
      GroupedDictionary(dtos, LocationKey);
      Success(ToDictionary(GroupBy(dtos, LocationKey)))
  }

  /** What each DTO says about its case: the group key is the case's location
      label or "Unknown"; the SVG id is that of a body location the case joins,
      or "Unknown" when it joins none or the matched id is null; the case type
      label is that of a case type it joins; closed exactly when a close time is set. */
  lemma CaseDtoFacts(t: CaseTables, request: GetCasesByPatientQuery, mapper: CaseMapper, n: nat)
    requires n < |CaseDtos(t, request, mapper)|
    ensures var dto := CaseDtos(t, request, mapper)[n];
            var c := CaseRows(t, request)[n].caseItem;
            var bls := t.bodyLocations;
            BelongsTo(c, request) &&
            LocationKey(dto) == c.caseLocation.GetOr(UnknownLabel) &&
            (dto.isCaseClosed <==> c.caseCloseTime.Some?) &&
            (exists j :: 0 <= j < |t.caseTypes| && TypeJoins(c, t.caseTypes[j]) &&
                         dto.caseTypeShortLabel == t.caseTypes[j].caseTypeShortLabel) &&
            ((forall k :: 0 <= k < |bls| ==> !LocationJoins(c, bls[k])) ==> dto.locationSvgId == UnknownLabel) &&
            ((exists k :: 0 <= k < |bls| && LocationJoins(c, bls[k])) ==>
               exists k :: 0 <= k < |bls| && LocationJoins(c, bls[k]) &&
                           dto.locationSvgId == bls[k].svgGraphicId.GetOr(UnknownLabel))
  {
    QueryRowsSound(t, request);
    assert Justified(CaseRows(t, request)[n], t, request);
  }

  /** Each DTO sits in the group of its own key, each group holds only DTOs
      with that key, and the group sizes add up to the number of DTOs. */
  lemma CaseGroupsPartition(t: CaseTables, request: GetCasesByPatientQuery, mapper: CaseMapper)
    ensures var dtos := CaseDtos(t, request, mapper);
            var m := Handle(request, Rows(t), mapper).value;
            (forall n :: 0 <= n < |dtos| ==> LocationKey(dtos[n]) in m && dtos[n] in m[LocationKey(dtos[n])]) &&
            (forall k, i :: k in m && 0 <= i < |m[k]| ==> m[k][i] in dtos && LocationKey(m[k][i]) == k) &&
            TotalSize(GroupBy(dtos, LocationKey)) == |dtos|
  {
    var dtos := CaseDtos(t, request, mapper);
    DictionaryMembership(dtos, LocationKey);
    GroupBySizes(dtos, LocationKey);
  }
}
