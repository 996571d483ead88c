/**
 * The clients sheet service: reading all clients, appending one, deleting one by position and
 * overwriting one by position. The Sheets API calls themselves are outside the model: the rows
 * they return, the range an append reports and the sheet id the metadata lookup finds are inputs,
 * and the requests the service would send are outputs.
 */
module ClientsSheet {
  import opened Wrappers
  import opened Text
  import opened Lists
  import opened Weekdays
  import opened SheetRecords

  /** `getClientsFromSheet`: the JSON array it answers with, for the rows of `Hoja 1!A1:H`. */
  method GetClients(rows: seq<seq<string>>) returns (body: seq<Record>)
    ensures |rows| == 0 ==> body == []
    ensures multiset(body) == multiset(Mapped(rows))
    ensures SortedByName(body)
  {
    body := GetRecords(rows);
  }

  // ---------------------------------------------------------------- schedule text

  /** `daysMap`. */
  function Abbrev(d: Weekday): string {
    match d
    case Monday => "Lun"
    case Tuesday => "Mar"
    case Wednesday => "Mié"
    case Thursday => "Jue"
    case Friday => "Vie"
    case Saturday => "Sáb"
    case Sunday => "Dom"
  }

  /** The keys of the `schedule` object in their declaration order. */
  const WeekOrder := [Monday, Tuesday, Wednesday, Thursday, Friday, Saturday, Sunday]

  /** `Object.entries(schedule).filter(([_, value]) => value)`: the ticked days, in week order. */
  function SelectedDays(s: WeekSchedule): seq<Weekday> {
    Filter((d: Weekday) => s.Get(d), WeekOrder)
  }

  /** `.map(([day]) => daysMap[day])` of the ticked days. */
  function SelectedAbbrevs(s: WeekSchedule): seq<string> {
    MapSeq(Abbrev, SelectedDays(s))
  }

  /** The days part of the schedule string: the selected abbreviations joined by `", "`. */
  function DaysText(s: WeekSchedule): string {
    Join(SelectedAbbrevs(s), ", ")
  }

  /** The schedule string `addClientToSheet` stores: `"<days> - <time>"`, or `"No definido"` without days. */
  function AddScheduleString(s: WeekSchedule, time: string): string {
    var days := DaysText(s);
    if days != "" then days + " - " + time else "No definido"
  }

  /** The schedule string `updateClientInSheet` stores: always `"<days> - <time>"`. */
  function UpdateScheduleString(s: WeekSchedule, time: string): string {
    DaysText(s) + " - " + time
  }

  /** Reading an abbreviation back, as the edit form's day tests do. */
  function DayOfAbbrev(a: string): (r: Option<Weekday>)
    ensures r.Some? ==> Abbrev(r.value) == a
  {
    if a == "Lun" then Some(Monday)
    else if a == "Mar" then Some(Tuesday)
    else if a == "Mié" then Some(Wednesday)
    else if a == "Jue" then Some(Thursday)
    else if a == "Vie" then Some(Friday)
    else if a == "Sáb" then Some(Saturday)
    else if a == "Dom" then Some(Sunday)
    else None
  }

  /** Each day's abbreviation reads back as that day, so no two days share one. */
  lemma AbbrevInjective(d: Weekday, e: Weekday)
    ensures DayOfAbbrev(Abbrev(d)) == Some(d)
    ensures Abbrev(d) == Abbrev(e) ==> d == e
  {
    assert DayOfAbbrev(Abbrev(e)) == Some(e);
  }

  lemma InWeekOrder(d: Weekday)
    ensures d in WeekOrder
  {
    match d
    case Monday => assert WeekOrder[0] == d;
    case Tuesday => assert WeekOrder[1] == d;
    case Wednesday => assert WeekOrder[2] == d;
    case Thursday => assert WeekOrder[3] == d;
    case Friday => assert WeekOrder[4] == d;
    case Saturday => assert WeekOrder[5] == d;
    case Sunday => assert WeekOrder[6] == d;
  }

  /** A day is kept by the filter exactly when it is ticked. */
  lemma SelectedDayMember(s: WeekSchedule, d: Weekday)
    ensures d in SelectedDays(s) <==> s.Get(d)
  {
    InWeekOrder(d);
    FilterMember((e: Weekday) => s.Get(e), WeekOrder, d);
  }

  /** A day's abbreviation is listed exactly when the day is ticked. */
  lemma AbbrevListed(s: WeekSchedule, d: Weekday)
    ensures Abbrev(d) in SelectedAbbrevs(s) <==> s.Get(d)
  {
    SelectedDayMember(s, d);
    var days := SelectedDays(s);
    var abbrevs := SelectedAbbrevs(s);
    if s.Get(d) {
      var k :| 0 <= k < |days| && days[k] == d;
      assert abbrevs[k] == Abbrev(d);
    }
    if Abbrev(d) in abbrevs {
      var k :| 0 <= k < |abbrevs| && abbrevs[k] == Abbrev(d);
      AbbrevInjective(days[k], d);
      assert days[k] in days;
    }
  }

  /**
   * The abbreviations are those of exactly the ticked days, each naming a ticked day; there are
   * none exactly when no day is ticked.
   */
  lemma SelectedAbbrevsSpec(s: WeekSchedule)
    ensures forall d :: Abbrev(d) in SelectedAbbrevs(s) <==> s.Get(d)
    ensures forall k | 0 <= k < |SelectedAbbrevs(s)| :: exists d :: SelectedAbbrevs(s)[k] == Abbrev(d) && s.Get(d)
    ensures |SelectedAbbrevs(s)| == 0 <==> !s.AnySelected()
  {
    forall d ensures Abbrev(d) in SelectedAbbrevs(s) <==> s.Get(d) {
      AbbrevListed(s, d);
    }
    var days := SelectedDays(s);
    forall k | 0 <= k < |SelectedAbbrevs(s)| ensures exists d :: SelectedAbbrevs(s)[k] == Abbrev(d) && s.Get(d) {
      SelectedDayMember(s, days[k]);
      assert SelectedAbbrevs(s)[k] == Abbrev(days[k]);
    }
    AnySelectedSpec(s);
    if s.AnySelected() {
      var d :| s.Get(d);
      SelectedDayMember(s, d);
    }
  }

  lemma JoinEmpty(parts: seq<string>, sep: string)
    requires forall k | 0 <= k < |parts| :: |parts[k]| > 0
    ensures Join(parts, sep) == "" <==> |parts| == 0
  {
    if |parts| >= 2 {
      assert Join(parts, sep) == parts[0] + sep + Join(parts[1..], sep);
      assert |Join(parts, sep)| >= |parts[0]|;
    }
  }

  /**
   * Every abbreviation is three letters: no digit, colon, comma or space, and no `N` first as in
   * `"No definido"`.
   */
  lemma AbbrevShape(d: Weekday)
    ensures |Abbrev(d)| == 3 && NoDigit(Abbrev(d)) && Abbrev(d)[0] != 'N' && Abbrev(d)[0] != ':'
    ensures ',' !in Abbrev(d) && ' ' !in Abbrev(d)
  {
  }

  /** The days text is empty exactly when no day is ticked; otherwise it starts with a day's initial. */
  lemma DaysTextSpec(s: WeekSchedule)
    ensures DaysText(s) == "" <==> !s.AnySelected()
    ensures DaysText(s) != "" ==> DaysText(s)[0] != 'N'
  {
    var days := SelectedDays(s);
    var parts := SelectedAbbrevs(s);
    forall k | 0 <= k < |parts| ensures |parts[k]| > 0 {
      AbbrevShape(days[k]);
    }
    JoinEmpty(parts, ", ");
    SelectedAbbrevsSpec(s);
    if |parts| > 0 {
      AbbrevShape(days[0]);
      if |parts| >= 2 {
        assert Join(parts, ", ") == parts[0] + ", " + Join(parts[1..], ", ");
      }
      assert Join(parts, ", ")[0] == parts[0][0];
    }
  }

  /**
   * The add string is `"No definido"` exactly when no day is selected; otherwise it is the
   * update string. The update string has no fallback: without days it is `" - "` + time.
   */
  lemma ScheduleStrings(s: WeekSchedule, time: string)
    ensures AddScheduleString(s, time) == "No definido" <==> !s.AnySelected()
    ensures s.AnySelected() ==> AddScheduleString(s, time) == UpdateScheduleString(s, time)
    ensures !s.AnySelected() ==> UpdateScheduleString(s, time) == " - " + time
  {
    DaysTextSpec(s);
    var days := DaysText(s);
    if days != "" {
      assert (days + " - " + time)[0] == days[0];
    } else {
      assert days + " - " + time == " - " + time;
    }
  }

  // ---------------------------------------------------------------- writing a client

  /** The client object the add and edit forms send. */
  datatype ClientData = ClientData(
    name: string, modality: string, birthDate: string, whatsapp: string, planUrl: string,
    schedule: WeekSchedule, time: string, startService: string, lastAntro: string)

  /** The cells of a written client row, columns A to H. */
  function ClientValues(c: ClientData, scheduleString: string): seq<string> {
    [c.name, c.modality, c.birthDate, c.whatsapp, c.planUrl, scheduleString, c.startService, c.lastAntro]
  }

  /** `addClientToSheet`: the row it appends. */
  function AddClientRow(c: ClientData): seq<string> {
    ClientValues(c, AddScheduleString(c.schedule, c.time))
  }

  /** `addClientToSheet`: its reply, from the `updatedRange` the append reports. */
  function AddClient(updatedRange: string): AddOutcome {
    AddReply(updatedRange)
  }

  // ---------------------------------------------------------------- deleting a client

  /** The `deleteRange` request: rows [startRowIndex, endRowIndex), columns A to H. */
  datatype DeleteRange = DeleteRange(
    sheetId: int, startRowIndex: int, endRowIndex: int, startColumnIndex: int, endColumnIndex: int)

  datatype DeletedClient = DeletedClient(request: DeleteRange, deletedClient: Record)

  /** The keys the deleted client is echoed with, paired with the removed row's cells. */
  const DeletedClientKeys := ["name", "modality", "birthDate", "whatsapp", "planUrl", "schedule", "startService"]

  /** The JSON the delete echoes: the numeric id, then the removed row's cells under their keys. */
  function DeletedEcho(id: int, row: seq<string>): Record {
    map["id" := Num(id)] + Entries(DeletedClientKeys, row)
  }

  /** `if (!sheetId)` as written: a sheet whose id is 0 counts as not found. */
  predicate SheetMissingAsWritten(sheetId: Option<int>) {
    sheetId.None? || sheetId.value == 0
  }

  /**
   * `deleteClientFromSheet` as written, for the sheet id the metadata lookup found
   * (`None` when no sheet is titled `Hoja 1`), the rows of `Hoja 1!A2:H` and the `id` parameter.
   */
  function DeleteClientAsWritten(sheetId: Option<int>, rows: seq<seq<string>>, id: string): Response<DeletedClient> {
    if SheetMissingAsWritten(sheetId) then Status(404, "Hoja no encontrada")
    else DeleteFoundSheet(sheetId.value, rows, id)
  }

  /** `deleteClientFromSheet` with the sheet test meaning "no sheet was found". */
  function DeleteClient(sheetId: Option<int>, rows: seq<seq<string>>, id: string): (r: Response<DeletedClient>)
    ensures sheetId.None? ==> r == Status(404, "Hoja no encontrada")
    ensures sheetId.Some? && |rows| == 0 ==> r == Status(404, "No se encontraron clientes")
    ensures sheetId.Some? && |rows| > 0 ==>
              (r.Ok? <==> ParseInt(id).Some? && 1 <= ParseInt(id).value <= |rows|)
    ensures sheetId.Some? && |rows| > 0 && r.Status? ==> r == Status(400, "ID de cliente inválido")
    ensures r.Ok? ==>
              var n := ParseInt(id).value;
              && r.body.request == DeleteRange(sheetId.value, n, n + 1, 0, 8)
              && r.body.deletedClient == DeletedEcho(n, rows[n - 1])
  {
    if sheetId.None? then Status(404, "Hoja no encontrada")
    else DeleteFoundSheet(sheetId.value, rows, id)
  }

  function DeleteFoundSheet(sheetId: int, rows: seq<seq<string>>, id: string): Response<DeletedClient> {
    if |rows| == 0 then Status(404, "No se encontraron clientes")
    else
      match ParseInt(id)
      case None => Status(400, "ID de cliente inválido")
      case Some(n) =>
        if n < 1 || n > |rows| then Status(400, "ID de cliente inválido")
        else
          var rowNumber := n + 1;
          Ok(DeletedClient(DeleteRange(sheetId, rowNumber - 1, rowNumber, 0, 8), DeletedEcho(n, rows[n - 1])))
  }

  /** A first sheet (whose id is 0) is reported missing by the code as written, though it was found. */
  lemma DeleteRejectsSheetZero()
    ensures DeleteClientAsWritten(Some(0), [["Ana"]], "1") == Status(404, "Hoja no encontrada")
    ensures DeleteClient(Some(0), [["Ana"]], "1").Ok?
  {
    ParseIntDecimal(1, "");
    assert Decimal(1) + "" == "1";
  }

  /**
   * The echo holds the numeric id, and each of the seven names paired with the removed row's
   * cell at its position, absent where the row is shorter; the eighth column has no name.
   */
  lemma EchoSpec(n: int, row: seq<string>)
    ensures DeletedEcho(n, row)["id"] == Num(n)
    ensures forall i | 0 <= i < |DeletedClientKeys| :: DeletedClientKeys[i] in DeletedEcho(n, row) <==> i < |row|
    ensures forall i | 0 <= i < |DeletedClientKeys| && i < |row| ::
              DeletedEcho(n, row)[DeletedClientKeys[i]] == Str(row[i])
    ensures "lastAntro" !in DeletedEcho(n, row)
  {
    var keys := DeletedClientKeys;
    assert Distinct(keys);
    forall i | 0 <= i < |keys| ensures keys[i] in Entries(keys, row) <==> i < |row|
      ensures i < |row| ==> Entries(keys, row)[keys[i]] == Str(row[i])
    {
      EntriesSpec(keys, row, i);
    }
    EntriesAbsent(keys, row, "id");
    EntriesAbsent(keys, row, "lastAntro");
  }

  /**
   * Deleting a client by the decimal of its position n removes zero-based sheet row n (sheet row
   * n + 1) and echoes the cells an add wrote there.
   */
  lemma DeleteAddedRow(sheetId: int, rows: seq<seq<string>>, n: nat, c: ClientData)
    requires 1 <= n <= |rows| && rows[n - 1] == AddClientRow(c)
    ensures DeleteClient(Some(sheetId), rows, Decimal(n))
            == Ok(DeletedClient(DeleteRange(sheetId, n, n + 1, 0, 8), DeletedEcho(n, AddClientRow(c))))
  {
    DeleteAtPosition(sheetId, rows, n);
  }

  lemma DeleteAtPosition(sheetId: int, rows: seq<seq<string>>, n: nat)
    requires 1 <= n <= |rows|
    ensures DeleteClient(Some(sheetId), rows, Decimal(n))
            == Ok(DeletedClient(DeleteRange(sheetId, n, n + 1, 0, 8), DeletedEcho(n, rows[n - 1])))
  {
    ParseIntDecimal(n, "");
    assert Decimal(n) + "" == Decimal(n);
  }

  // ---------------------------------------------------------------- updating a client

  /** A `values.update` request: the A1 range and the cells written there. */
  datatype UpdateRequest = UpdateRequest(range: string, values: seq<string>)

  datatype UpdatedClient = UpdatedClient(request: UpdateRequest, updatedData: ClientData)

  /** The cells `updateClientInSheet` writes. */
  function UpdateClientRow(c: ClientData): seq<string> {
    ClientValues(c, UpdateScheduleString(c.schedule, c.time))
  }

  /** The reply for a position that passed the guard: sheet row id + 1 is overwritten. */
  function UpdateAt(id: int, c: ClientData): (r: Response<UpdatedClient>)
    requires id >= 1
    ensures r.Ok? && r.body.request.range == RowRange(id + 1, 'h')
  {
    Ok(UpdatedClient(UpdateRequest(RowRange(id + 1, 'h'), UpdateClientRow(c)), c))
  }

  /**
   * `updateClientInSheet` as written, for the rows of `Hoja 1!A2:H` (an empty range arrives
   * without `values`) and the `id` parameter. The guard tests `rowIndex < 0` first, so an id
   * parsing to 0 or less is answered 404 before the missing rows are touched; any other id reads
   * their length, which throws. `parseInt` of a non-numeric id is `NaN`, every comparison with
   * which is false, so the guard lets it through and the range written is `Hoja 1!ANaN:hNaN`.
   */
  function UpdateClientAsWritten(rows: seq<seq<string>>, id: string, c: ClientData): Response<UpdatedClient> {
    match ParseInt(id)
    case None =>
      if |rows| == 0 then Status(500, "Error al editar el cliente")
      else Ok(UpdatedClient(UpdateRequest(SheetName + "!ANaN:hNaN", UpdateClientRow(c)), c))
    case Some(n) =>
      if n - 1 < 0 then Status(404, "Cliente no encontrado")
      else if |rows| == 0 then Status(500, "Error al editar el cliente")
      else if n - 1 >= |rows| then Status(404, "Cliente no encontrado")
      else UpdateAt(n, c)
  }

  /**
   * `updateClientInSheet` with a non-numeric id reported as not found: it succeeds exactly for
   * the positions 1 to the number of rows, and then overwrites sheet row id + 1 with the
   * client's cells and echoes the client. The order of the checks is the code's: an id of 0 or
   * less is refused before the rows are read.
   */
  function UpdateClient(rows: seq<seq<string>>, id: string, c: ClientData): (r: Response<UpdatedClient>)
    ensures ParseInt(id).Some? && ParseInt(id).value < 1 ==> r == Status(404, "Cliente no encontrado")
    ensures |rows| == 0 && !(ParseInt(id).Some? && ParseInt(id).value < 1) ==>
              r == Status(500, "Error al editar el cliente")
    ensures |rows| > 0 ==> (r.Ok? <==> ParseInt(id).Some? && 1 <= ParseInt(id).value <= |rows|)
    ensures |rows| > 0 && r.Status? ==> r == Status(404, "Cliente no encontrado")
    ensures r.Ok? ==> r.body.request.range == RowRange(ParseInt(id).value + 1, 'h')
    ensures r.Ok? ==> r.body.request.values == UpdateClientRow(c) && r.body.updatedData == c
  {
    match ParseInt(id)
    case None =>
      if |rows| == 0 then Status(500, "Error al editar el cliente") else Status(404, "Cliente no encontrado")
    case Some(n) =>
      if n - 1 < 0 then Status(404, "Cliente no encontrado")
      else if |rows| == 0 then Status(500, "Error al editar el cliente")
      else if n - 1 >= |rows| then Status(404, "Cliente no encontrado")
      else UpdateAt(n, c)
  }

  /** A successful update writes the sheet row one past the position it was given. */
  lemma UpdateTargetsRow(rows: seq<seq<string>>, id: string, c: ClientData)
    requires UpdateClient(rows, id, c).Ok?
    ensures AppendedRow(UpdateClient(rows, id, c).body.request.range) == Some(ParseInt(id).value + 1)
  {
    var n := ParseInt(id).value;
    assert UpdateClient(rows, id, c).body.request.range == RowRange(n + 1, 'h');
    RowRangeRow(n + 1, 'h');
  }

  /** The two agree except on a non-numeric id. */
  lemma UpdateClientAgrees(rows: seq<seq<string>>, id: string, c: ClientData)
    requires ParseInt(id).Some?
    ensures UpdateClientAsWritten(rows, id, c) == UpdateClient(rows, id, c)
  {
  }

  /** As written, the id `"abc"` passes the guard and the update targets a range that names no row. */
  lemma UpdateAcceptsNaN(c: ClientData)
    ensures UpdateClientAsWritten([["Ana"]], "abc", c).Ok?
    ensures AppendedRow(UpdateClientAsWritten([["Ana"]], "abc", c).body.request.range) == None
    ensures UpdateClient([["Ana"]], "abc", c) == Status(404, "Cliente no encontrado")
  {
    assert TrimStart("abc") == "abc";
    assert DigitPrefix("abc", false) == "";
    var range := SheetName + "!ANaN:hNaN";
    var pre, post := "Hoja 1!", "NaN:hNaN";
    assert range == pre + "A" + post;
    forall q | 0 <= q < |range| ensures !RowRefAt(range, q) {
      if q < |pre| {
        assert range[q] == pre[q] && pre[q] in pre;
      } else if q > |pre| {
        assert range[q] == post[q - |pre| - 1] && post[q - |pre| - 1] in post;
      } else {
        assert range[q + 1] == 'N';
      }
    }
    assert FirstRowRef(range, 0) == None;
  }
}
