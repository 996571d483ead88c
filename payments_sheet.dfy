/**
 * The payments sheet service: reading all payments, appending one, deleting one by position and
 * overwriting the first payment whose column A holds a given student id. As for the clients
 * sheet, what the Sheets API returns is an input and the requests sent are outputs.
 */
module PaymentsSheet {
  import opened Wrappers
  import opened Text
  import opened SheetRecords

  /** `getPaymentsFromSheet`: the JSON array it answers with, for the rows of `Hoja 1!A1:H`. */
  method GetPayments(rows: seq<seq<string>>) returns (body: seq<Record>)
    ensures |rows| == 0 ==> body == []
    ensures multiset(body) == multiset(Mapped(rows))
    ensures SortedByName(body)
  {
    body := GetRecords(rows);
  }

  /** The payment object the add and edit payment forms send. */
  datatype PaymentData = PaymentData(
    studentId: string, name: string, modality: string, amount: string,
    date: string, dueDate: string, phone: string, status: string)

  /** `addPaymentToSheet`: the row it appends (columns A to G; the status column stays empty). */
  function AddPaymentRow(p: PaymentData): seq<string> {
    [p.studentId, p.name, p.amount, p.date, p.dueDate, p.modality, p.phone]
  }

  /** `updatePaymentInSheet`: the row it writes, columns A to H. */
  function UpdatePaymentRow(p: PaymentData): seq<string> {
    AddPaymentRow(p) + [p.status]
  }

  /** `addPaymentToSheet`: its reply, from the `updatedRange` the append reports. */
  function AddPayment(updatedRange: string): AddOutcome {
    AddReply(updatedRange)
  }

  // ---------------------------------------------------------------- deleting a payment

  /** The `deleteDimension` request: rows [startIndex, endIndex) of the sheet with id `sheetId`. */
  datatype DeleteDimension = DeleteDimension(sheetId: int, startIndex: int, endIndex: int)

  datatype DeletedPayment = DeletedPayment(request: DeleteDimension, deletedPayment: Record)

  /** The names the delete echoes the removed row's cells under, as written. */
  const EchoKeysAsWritten := ["id_student", "name", "amount", "date", "dueDate", "phone", "modality", "status"]

  /** The names in the order the add and update handlers write the columns. */
  const EchoKeys := ["id_student", "name", "amount", "date", "dueDate", "modality", "phone", "status"]

  /**
   * `deletePaymentFromSheet` for the rows of `Hoja 1!A2:H` and the `id` parameter, echoing the
   * removed row under `keys`. The request always addresses the sheet whose id is 0.
   */
  function DeletePaymentWith(keys: seq<string>, rows: seq<seq<string>>, id: string): (r: Response<DeletedPayment>)
    ensures |rows| == 0 ==> r == Status(404, "No se encontraron pagos")
    ensures |rows| > 0 ==> (r.Ok? <==> ParseInt(id).Some? && 1 <= ParseInt(id).value <= |rows|)
    ensures |rows| > 0 && r.Status? ==> r == Status(400, "ID del pago inválido")
    ensures r.Ok? ==>
              var n := ParseInt(id).value;
              && r.body.request == DeleteDimension(0, n, n + 1)
              && r.body.deletedPayment == map["id" := Num(n)] + Entries(keys, rows[n - 1])
  {
    if |rows| == 0 then Status(404, "No se encontraron pagos")
    else
      match ParseInt(id)
      case None => Status(400, "ID del pago inválido")
      case Some(n) =>
        if n < 1 || n > |rows| then Status(400, "ID del pago inválido")
        else
          var rowNumber := n + 1;
          Ok(DeletedPayment(DeleteDimension(0, rowNumber - 1, rowNumber),
                            map["id" := Num(n)] + Entries(keys, rows[n - 1])))
  }

  function DeletePaymentAsWritten(rows: seq<seq<string>>, id: string): Response<DeletedPayment> {
    DeletePaymentWith(EchoKeysAsWritten, rows, id)
  }

  /** `deletePaymentFromSheet` with the echo names matching the written column order. */
  function DeletePayment(rows: seq<seq<string>>, id: string): Response<DeletedPayment> {
    DeletePaymentWith(EchoKeys, rows, id)
  }

  /** Deleting by the decimal of position n removes zero-based sheet row n, which is sheet row n + 1. */
  lemma DeletePaymentAt(keys: seq<string>, rows: seq<seq<string>>, n: nat)
    requires 1 <= n <= |rows|
    ensures DeletePaymentWith(keys, rows, Decimal(n))
            == Ok(DeletedPayment(DeleteDimension(0, n, n + 1), map["id" := Num(n)] + Entries(keys, rows[n - 1])))
  {
    ParseIntDecimal(n, "");
    assert Decimal(n) + "" == Decimal(n);
  }

  /** The echo of a row an update wrote gives back every field under its own name. */
  lemma EchoOfPayment(n: int, p: PaymentData)
    ensures var e := map["id" := Num(n)] + Entries(EchoKeys, UpdatePaymentRow(p));
            && e["id"] == Num(n)
            && e["id_student"] == Str(p.studentId) && e["name"] == Str(p.name)
            && e["amount"] == Str(p.amount) && e["date"] == Str(p.date)
            && e["dueDate"] == Str(p.dueDate) && e["modality"] == Str(p.modality)
            && e["phone"] == Str(p.phone) && e["status"] == Str(p.status)
  {
    var keys, row := EchoKeys, UpdatePaymentRow(p);
    assert row == [p.studentId, p.name, p.amount, p.date, p.dueDate, p.modality, p.phone, p.status];
    assert Distinct(keys);
    EchoCells(keys, row, n);
    assert keys[0] == "id_student" && keys[1] == "name" && keys[2] == "amount" && keys[3] == "date";
    assert keys[4] == "dueDate" && keys[5] == "modality" && keys[6] == "phone" && keys[7] == "status";
  }

  /** As written, the echo of a stored payment shows its modality as the phone and its phone as the modality. */
  lemma EchoSwapsPhoneAndModality(n: int, p: PaymentData)
    ensures var e := map["id" := Num(n)] + Entries(EchoKeysAsWritten, UpdatePaymentRow(p));
            "phone" in e && "modality" in e && e["phone"] == Str(p.modality) && e["modality"] == Str(p.phone)
  {
    var keys, row := EchoKeysAsWritten, UpdatePaymentRow(p);
    assert row == [p.studentId, p.name, p.amount, p.date, p.dueDate, p.modality, p.phone, p.status];
    assert Distinct(keys);
    EchoCells(keys, row, n);
    assert keys[5] == "phone" && keys[6] == "modality";
  }

  /** For an eight-column row and eight distinct names, each name holds the cell at its position. */
  lemma EchoCells(keys: seq<string>, row: seq<string>, n: int)
    requires |keys| == 8 && |row| == 8 && Distinct(keys) && "id" !in keys
    ensures var e := map["id" := Num(n)] + Entries(keys, row);
            && e["id"] == Num(n)
            && forall i | 0 <= i < 8 :: keys[i] in e && e[keys[i]] == Str(row[i])
  {
    forall i | 0 <= i < 8 ensures keys[i] in Entries(keys, row) && Entries(keys, row)[keys[i]] == Str(row[i]) {
      EntriesSpec(keys, row, i);
    }
    EntriesAbsent(keys, row, "id");
  }

  // ---------------------------------------------------------------- updating a payment

  /** `rows.findIndex(row => row[0] === id)`: the first row whose column A is `id`. */
  function FindRow(rows: seq<seq<string>>, id: string): (r: Option<nat>)
    ensures r.Some? ==> r.value < |rows| && |rows[r.value]| > 0 && rows[r.value][0] == id
    ensures forall k | 0 <= k < (if r.Some? then r.value else |rows|) :: !(|rows[k]| > 0 && rows[k][0] == id)
    decreases |rows|
  {
    if |rows| == 0 then None
    else if |rows[0]| > 0 && rows[0][0] == id then Some(0)
    else
      match FindRow(rows[1..], id)
      case None => None
      case Some(k) => Some(k + 1)
  }

  datatype UpdateRequest = UpdateRequest(range: string, values: seq<string>)

  datatype UpdatedPayment = UpdatedPayment(request: UpdateRequest, updatedData: PaymentData)

  /**
   * `updatePaymentInSheet` for the rows of `Hoja 1!A2:H` (an empty range arrives without
   * `values`, and searching it throws) and the `id` parameter: it overwrites the sheet row of the
   * first row whose column A equals `id`, and answers 404 when there is none.
   */
  function UpdatePayment(rows: seq<seq<string>>, id: string, p: PaymentData): (r: Response<UpdatedPayment>)
    ensures |rows| == 0 ==> r == Status(500, "Error al editar el pago")
    ensures |rows| > 0 ==> (r.Ok? <==> exists k | 0 <= k < |rows| :: |rows[k]| > 0 && rows[k][0] == id)
    ensures |rows| > 0 && r.Status? ==> r == Status(404, "Pago no encontrado")
    ensures r.Ok? ==>
              exists k | 0 <= k < |rows| ::
                && |rows[k]| > 0 && rows[k][0] == id
                && (forall j | 0 <= j < k :: !(|rows[j]| > 0 && rows[j][0] == id))
                && r.body.request.range == RowRange(k + 2, 'H')
    ensures r.Ok? ==> r.body.request.values == UpdatePaymentRow(p) && r.body.updatedData == p
  {
    if |rows| == 0 then Status(500, "Error al editar el pago")
    else
      match FindRow(rows, id)
      case None => Status(404, "Pago no encontrado")
      case Some(k) =>
        Ok(UpdatedPayment(UpdateRequest(RowRange(k + 2, 'H'), UpdatePaymentRow(p)), p))
  }

  /**
   * The id the update searches for is compared with column A, which holds the student id: the
   * update rewrites the first payment of that student, wherever it lies.
   */
  lemma UpdateFindsFirstPaymentOfStudent(rows: seq<seq<string>>, k: nat, p: PaymentData, q: PaymentData)
    requires k < |rows| && rows[k] == UpdatePaymentRow(p)
    requires forall j | 0 <= j < k :: !(|rows[j]| > 0 && rows[j][0] == p.studentId)
    ensures UpdatePayment(rows, p.studentId, q).Ok?
    ensures AppendedRow(UpdatePayment(rows, p.studentId, q).body.request.range) == Some(k + 2)
  {
    assert rows[k][0] == p.studentId;
    var r := UpdatePayment(rows, p.studentId, q);
    var k' :| 0 <= k' < |rows| && |rows[k']| > 0 && rows[k'][0] == p.studentId
              && (forall j | 0 <= j < k' :: !(|rows[j]| > 0 && rows[j][0] == p.studentId))
              && r.body.request.range == RowRange(k' + 2, 'H');
    assert k' == k;
    RowRangeRow(k + 2, 'H');
  }
}
