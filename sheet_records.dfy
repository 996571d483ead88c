/**
 * The part shared by the clients and the payments sheet services when they read a sheet: the
 * first row holds the headers, blank rows are dropped, every other row becomes a JSON object
 * whose `id` and `rowNumber` come from its position, and the objects are sorted by name in place.
 */
module SheetRecords {
  import opened Wrappers
  import opened Text
  import opened Lists

  /** A JSON property value of a record: a positional number or a cell's text. */
  datatype Value = Num(n: int) | Str(s: string)

  /** A JSON object: property name to value. */
  type Record = map<string, Value>

  /** `row[i] || ""`: the cell, or the empty string past the end of a short row. */
  function Cell(row: seq<string>, i: nat): string {
    if i < |row| then row[i] else ""
  }

  /** `row.some(cell => cell && cell.trim() !== "")`. */
  predicate HasContent(row: seq<string>) {
    exists i | 0 <= i < |row| :: !IsBlank(row[i])
  }

  /** The rows after the header that keep at least one non-blank cell, in sheet order. */
  function DataRows(rows: seq<seq<string>>): seq<seq<string>>
    requires |rows| > 0
  {
    Filter(HasContent, rows[1..])
  }

  /** Exactly the blank rows after the header are dropped; the others keep their order and multiplicity. */
  lemma DataRowsSpec(rows: seq<seq<string>>)
    requires |rows| > 0
    ensures IsSubsequence(DataRows(rows), rows[1..])
    ensures forall k | 0 <= k < |DataRows(rows)| :: HasContent(DataRows(rows)[k])
    ensures forall r :: multiset(DataRows(rows))[r] == if HasContent(r) then multiset(rows[1..])[r] else 0
  {
    FilterSpec(HasContent, rows[1..]);
  }

  /** The position of the last header equal to `h`. */
  function LastIndex(headers: seq<string>, h: string): (i: nat)
    requires h in headers
    ensures i < |headers| && headers[i] == h
    ensures forall j | i < j < |headers| :: headers[j] != h
    decreases |headers|
  {
    if headers[|headers| - 1] == h then |headers| - 1 else LastIndex(headers[..|headers| - 1], h)
  }

  /**
   * The `client` object that `headers.forEach((header, i) => client[header] = row[i] || "")`
   * builds: every header is a key, and a later duplicate header overwrites an earlier one.
   */
  function Fields(headers: seq<string>, row: seq<string>): map<string, string> {
    map h | h in headers :: Cell(row, LastIndex(headers, h))
  }

  function Textual(fields: map<string, string>): Record {
    map h | h in fields :: Str(fields[h])
  }

  /** `{ id: index + 1, rowNumber: index + 2, ...client }`: a header named like a positional key wins. */
  function MakeRecord(headers: seq<string>, row: seq<string>, index: nat): Record {
    map["id" := Num(index + 1), "rowNumber" := Num(index + 2)] + Textual(Fields(headers, row))
  }

  /** The records of a sheet before sorting: one per data row, numbered by position among the kept rows. */
  function Mapped(rows: seq<seq<string>>): seq<Record> {
    if |rows| == 0 then []
    else
      var kept := DataRows(rows);
      seq(|kept|, k requires 0 <= k < |kept| => MakeRecord(rows[0], kept[k], k))
  }

  /**
   * The k-th record maps each header to its cell (the last such header's, `""` past the row's
   * end), and has `id` = k + 1 and `rowNumber` = k + 2 unless a header of that name overrides them.
   */
  lemma MappedSpec(rows: seq<seq<string>>, k: nat)
    requires |rows| > 0 && k < |DataRows(rows)|
    ensures |Mapped(rows)| == |DataRows(rows)|
    ensures Mapped(rows)[k].Keys == {"id", "rowNumber"} + set h | h in rows[0]
    ensures "id" !in rows[0] ==> Mapped(rows)[k]["id"] == Num(k + 1)
    ensures "rowNumber" !in rows[0] ==> Mapped(rows)[k]["rowNumber"] == Num(k + 2)
    ensures forall i | 0 <= i < |rows[0]| && (forall j | i < j < |rows[0]| :: rows[0][j] != rows[0][i]) ::
              Mapped(rows)[k][rows[0][i]] == Str(Cell(DataRows(rows)[k], i))
  {
    MakeRecordSpec(rows[0], DataRows(rows)[k], k);
  }

  /** One record: the headers and the positional keys, each header holding its last column's cell. */
  lemma MakeRecordSpec(headers: seq<string>, row: seq<string>, index: nat)
    ensures MakeRecord(headers, row, index).Keys == {"id", "rowNumber"} + set h | h in headers
    ensures "id" !in headers ==> MakeRecord(headers, row, index)["id"] == Num(index + 1)
    ensures "rowNumber" !in headers ==> MakeRecord(headers, row, index)["rowNumber"] == Num(index + 2)
    ensures forall i | 0 <= i < |headers| && (forall j | i < j < |headers| :: headers[j] != headers[i]) ::
              MakeRecord(headers, row, index)[headers[i]] == Str(Cell(row, i))
  {
    var r := MakeRecord(headers, row, index);
    forall i | 0 <= i < |headers| && (forall j | i < j < |headers| :: headers[j] != headers[i])
      ensures r[headers[i]] == Str(Cell(row, i))
    {
      var li := LastIndex(headers, headers[i]);
      assert li == i;
    }
  }

  lemma FieldsSnoc(headers: seq<string>, i: nat, row: seq<string>)
    requires i < |headers|
    ensures Fields(headers[..i + 1], row) == Fields(headers[..i], row)[headers[i] := Cell(row, i)]
  {
    var pre, ext := headers[..i], headers[..i + 1];
    assert ext[..i] == pre;
    var f, g := Fields(ext, row), Fields(pre, row)[headers[i] := Cell(row, i)];
    forall h | h in f.Keys ensures h in g && f[h] == g[h] {
      if h != headers[i] {
        assert h in pre;
      }
    }
    assert f.Keys == g.Keys;
  }

  /** The header `forEach` of the source: it assigns one property per header, in header order. */
  method MapRow(headers: seq<string>, row: seq<string>) returns (client: map<string, string>)
    ensures client == Fields(headers, row)
  {
    client := map[];
    for i := 0 to |headers|
      invariant client == Fields(headers[..i], row)
    {
      FieldsSnoc(headers, i, row);
      client := client[headers[i] := Cell(row, i)];
    }
    assert headers[..|headers|] == headers;
  }

  /** The key `a.nombre?.toLowerCase() || ''` the sort compares; a missing name counts as `""`. */
  function NameKey(r: Record): string {
    if "nombre" in r && r["nombre"].Str? then Lower(r["nombre"].s) else ""
  }

  predicate NameLeq(a: Record, b: Record) {
    LexLeq(NameKey(a), NameKey(b))
  }

  predicate SortedByName(s: seq<Record>) {
    forall i, j | 0 <= i < j < |s| :: NameLeq(s[i], s[j])
  }

  /** `data.sort(...)` by name key, in place (an insertion sort stands in for the engine's sort). */
  method SortByName(a: array<Record>)
    modifies a
    ensures SortedByName(a[..])
    ensures multiset(a[..]) == multiset(old(a[..]))
  {
    var i := 0;
    while i < a.Length
      invariant 0 <= i <= a.Length
      invariant forall k, l | 0 <= k < l < i :: NameLeq(a[k], a[l])
      invariant multiset(a[..]) == multiset(old(a[..]))
    {
      InsertNext(a, i);
      i := i + 1;
    }
  }

  /** One insertion step: `a[i]` is moved down into the sorted prefix `a[..i]`. */
  method InsertNext(a: array<Record>, i: nat)
    requires i < a.Length
    requires forall k, l | 0 <= k < l < i :: NameLeq(a[k], a[l])
    modifies a
    ensures forall k, l | 0 <= k < l <= i :: NameLeq(a[k], a[l])
    ensures multiset(a[..]) == multiset(old(a[..]))
  {
    var j := i;
    while j > 0 && !NameLeq(a[j - 1], a[j])
      invariant 0 <= j <= i
      invariant Inserting(a[..], i, j)
      invariant multiset(a[..]) == multiset(old(a[..]))
    {
      InsertSwap(a[..], i, j);
      a[j - 1], a[j] := a[j], a[j - 1];
      j := j - 1;
    }
    InsertDone(a[..], i, j);
  }

  /**
   * Midway through an insertion step: the prefix up to `i` is sorted except for the moving
   * entry at `j`, which is no greater than anything after it.
   */
  ghost predicate Inserting(s: seq<Record>, i: nat, j: nat) {
    && j <= i < |s|
    && (forall k, l | 0 <= k < l <= i && k != j && l != j :: NameLeq(s[k], s[l]))
    && (forall l | j < l <= i :: NameLeq(s[j], s[l]))
  }

  /** Swapping the moving entry with a greater neighbour moves it one place down. */
  lemma InsertSwap(s: seq<Record>, i: nat, j: nat)
    requires 0 < j && Inserting(s, i, j) && !NameLeq(s[j - 1], s[j])
    ensures Inserting(s[j - 1 := s[j]][j := s[j - 1]], i, j - 1)
  {
    LexTotal(NameKey(s[j - 1]), NameKey(s[j]));
    var t := s[j - 1 := s[j]][j := s[j - 1]];
    forall l | j - 1 < l <= i ensures NameLeq(t[j - 1], t[l]) {
      if l > j {
        LexTransitive(NameKey(s[j]), NameKey(s[j - 1]), NameKey(s[l]));
      }
    }
  }

  /** The moving entry at rest: the whole prefix up to `i` is sorted. */
  lemma InsertDone(s: seq<Record>, i: nat, j: nat)
    requires Inserting(s, i, j) && (j == 0 || NameLeq(s[j - 1], s[j]))
    ensures forall k, l | 0 <= k < l <= i :: NameLeq(s[k], s[l])
  {
    forall k, l | 0 <= k < l <= i
      ensures NameLeq(s[k], s[l])
    {
      if l == j && k < j - 1 {
        LexTransitive(NameKey(s[k]), NameKey(s[j - 1]), NameKey(s[j]));
      }
    }
  }

  /**
   * The reading half of both get handlers: an empty sheet gives no records; otherwise the
   * result is a permutation of the mapped data rows, in non-decreasing order of name key.
   */
  method GetRecords(rows: seq<seq<string>>) returns (data: seq<Record>)
    ensures |rows| == 0 ==> data == []
    ensures multiset(data) == multiset(Mapped(rows))
    ensures SortedByName(data)
  {
    if |rows| == 0 {
      return [];
    }
    var headers := rows[0];
    var kept := Filter(HasContent, rows[1..]);
    var a := new Record[|kept|];
    for i := 0 to |kept|
      invariant forall k | 0 <= k < i :: a[k] == MakeRecord(headers, kept[k], k)
    {
      var client := MapRow(headers, kept[i]);
      a[i] := map["id" := Num(i + 1), "rowNumber" := Num(i + 2)] + Textual(client);
    }
    assert a[..] == Mapped(rows);
    SortByName(a);
    data := a[..];
  }

  // ---------------------------------------------------------------- appending a row

  /** The regular expression `/A(\d+)/` can start at position `q`: an `A` followed by a digit. */
  predicate RowRefAt(s: string, q: nat) {
    q + 1 < |s| && s[q] == 'A' && IsDigit(s[q + 1])
  }

  /** The leftmost position from `p` on where `/A(\d+)/` matches. */
  function FirstRowRef(s: string, p: nat): (r: Option<nat>)
    requires p <= |s|
    ensures r.Some? ==> p <= r.value < |s| && RowRefAt(s, r.value)
    ensures forall q | p <= q < (if r.Some? then r.value else |s|) :: !RowRefAt(s, q)
    decreases |s| - p
  {
    if p == |s| then None else if RowRefAt(s, p) then Some(p) else FirstRowRef(s, p + 1)
  }

  /** `parseInt(updatedRange.match(/A(\d+)/)[1])`: the row number the append reports; `None` when nothing matches. */
  function AppendedRow(updatedRange: string): Option<nat> {
    match FirstRowRef(updatedRange, 0)
    case None => None
    case Some(q) => Some(NumeralValue(DigitPrefix(updatedRange[q + 1..], false), false))
  }

  /** What an add returns: the new row's `id` and sheet `rowNumber`, or the error it throws. */
  datatype AddOutcome = Added(id: int, rowNumber: nat) | AddThrows(message: string)

  const AddFailedMessage := "No se pudo agregar el cliente a la hoja"

  /** The reply both add functions build from the range the append reports. */
  function AddReply(updatedRange: string): AddOutcome {
    match AppendedRow(updatedRange)
    case None => AddThrows(AddFailedMessage)
    case Some(n) => Added(n - 1, n)
  }

  lemma {:induction false} FirstRowRefAt(s: string, p: nat, k: nat)
    requires p <= k < |s| && RowRefAt(s, k)
    requires forall q | p <= q < k :: !RowRefAt(s, q)
    ensures FirstRowRef(s, p) == Some(k)
    decreases k - p
  {
    if p < k {
      FirstRowRefAt(s, p + 1, k);
    }
  }

  /**
   * For a range such as `'Hoja 1'!A5:H5` (a prefix without `A`, then `A`, the row's digits and
   * anything not starting with a digit) the add reports that row, with `id` = row - 1, so that
   * `rowNumber` = `id` + 1 as in the records the get handlers build.
   */
  lemma AddReplyRoundTrip(prefix: string, n: nat, suffix: string)
    requires 'A' !in prefix
    requires |suffix| == 0 || !IsDigit(suffix[0])
    ensures AppendedRow(prefix + "A" + Decimal(n) + suffix) == Some(n)
    ensures AddReply(prefix + "A" + Decimal(n) + suffix) == Added(n - 1, n)
  {
    var d := Decimal(n);
    Regroup(prefix, "A", d, suffix);
    assert "A" + d + suffix == "A" + (d + suffix);
    AppendedRowDigits(prefix, d, suffix);
    DecimalValue(n);
  }


  /** The same for any digit string: the row reported is the number those digits denote. */
  lemma AppendedRowDigits(prefix: string, d: string, suffix: string)
    requires 'A' !in prefix && |d| > 0 && AllDigits(d)
    requires |suffix| == 0 || !IsDigit(suffix[0])
    ensures AppendedRow(prefix + ("A" + (d + suffix))) == Some(NumeralValue(d, false))
  {
    RefBeforeDigits(prefix, d + suffix);
    DigitPrefixOfDigits(d, suffix);
  }

  /** The reference after a prefix without `A` is found at the prefix's end, digits next. */
  lemma RefBeforeDigits(prefix: string, t: string)
    requires 'A' !in prefix && |t| > 0 && IsDigit(t[0])
    ensures FirstRowRef(prefix + ("A" + t), 0) == Some(|prefix|)
    ensures (prefix + ("A" + t))[|prefix| + 1..] == t
  {
    var s := prefix + ("A" + t);
    var k := |prefix|;
    assert s[k] == 'A' && s[k + 1] == t[0];
    RefAfterPrefix(prefix, "A" + t);
    assert s[k + 1..] == t;
  }

  /** After a prefix without `A`, a row reference at the prefix's end is the first one. */
  lemma RefAfterPrefix(prefix: string, rest: string)
    requires 'A' !in prefix && RowRefAt(prefix + rest, |prefix|)
    ensures FirstRowRef(prefix + rest, 0) == Some(|prefix|)
  {
    var s := prefix + rest;
    forall q | 0 <= q < |prefix| ensures !RowRefAt(s, q) {
      assert s[q] == prefix[q];
      assert prefix[q] in prefix;
    }
    FirstRowRefAt(s, 0, |prefix|);
  }

  // ---------------------------------------------------------------- echoing a deleted row

  /**
   * `Object.fromEntries(keys.map((key, i) => [key, row[i]]))` as JSON: a key whose cell lies
   * past the end of the row has the value `undefined`, which JSON leaves out. Both delete handlers
   * echo the removed row this way.
   */
  function Entries(keys: seq<string>, row: seq<string>): Record
    decreases |keys|
  {
    if |keys| == 0 || |row| == 0 then map[]
    else map[keys[0] := Str(row[0])] + Entries(keys[1..], row[1..])
  }

  /** No key occurs twice. */
  predicate Distinct(keys: seq<string>) {
    forall a, b | 0 <= a < b < |keys| :: keys[a] != keys[b]
  }

  /** With distinct keys, the i-th key is present exactly when the row reaches position i, with that cell. */
  lemma {:induction false} EntriesSpec(keys: seq<string>, row: seq<string>, i: nat)
    requires i < |keys| && Distinct(keys)
    ensures keys[i] in Entries(keys, row) <==> i < |row|
    ensures i < |row| ==> Entries(keys, row)[keys[i]] == Str(row[i])
    decreases |keys|
  {
    if |row| > 0 && i > 0 {
      EntriesSpec(keys[1..], row[1..], i - 1);
    } else if |row| > 0 {
      assert forall b | 0 < b < |keys| :: keys[b] != keys[0];
      EntriesAbsent(keys[1..], row[1..], keys[0]);
    }
  }

  lemma {:induction false} EntriesAbsent(keys: seq<string>, row: seq<string>, key: string)
    requires key !in keys
    ensures key !in Entries(keys, row)
    decreases |keys|
  {
    if |keys| > 0 && |row| > 0 {
      EntriesAbsent(keys[1..], row[1..], key);
    }
  }

  // ---------------------------------------------------------------- addressing one row

  const SheetName := "Hoja 1"

  /** The A1 range `Hoja 1!A<row>:<last><row>` of one sheet row, as the update handlers write it. */
  function RowRange(row: nat, last: char): string {
    SheetName + "!A" + Decimal(row) + [':', last] + Decimal(row)
  }

  /** The row such a range names, read the way the add handlers read a range, is the row it was built from. */
  lemma RowRangeRow(row: nat, last: char)
    ensures AppendedRow(RowRange(row, last)) == Some(row)
  {
    var suffix := [':', last] + Decimal(row);
    assert RowRange(row, last) == SheetName + "!" + "A" + Decimal(row) + suffix;
    AddReplyRoundTrip(SheetName + "!", row, suffix);
  }
}
