/**
 * The students table: the search box filter over the loaded students and the `formatDate`
 * helper that renders the birth, start and last-assessment dates of each student.
 */
module StudentsTable {
  import opened Wrappers
  import opened Text
  import opened Lists

  // ---------------------------------------------------------------- the search filter

  /** The fields of a student the filter reads; `None` is a field the record does not have. */
  datatype StudentRow = StudentRow(nombre: Option<string>, modalidad: Option<string>, whatsapp: Option<string>)

  /**
   * A student is shown when the search term occurs in its name or modality, both compared in
   * lower case, or verbatim in its WhatsApp number. An absent field never matches.
   */
  predicate Matches(st: StudentRow, term: string) {
    || (st.nombre.Some? && Contains(Lower(st.nombre.value), Lower(term)))
    || (st.modalidad.Some? && Contains(Lower(st.modalidad.value), Lower(term)))
    || (st.whatsapp.Some? && Contains(st.whatsapp.value, term))
  }

  /** `filteredStudents`: the students the table lists for the search term. */
  function FilterStudents(students: seq<StudentRow>, term: string): seq<StudentRow> {
    Filter(st => Matches(st, term), students)
  }

  /**
   * The table lists, in their loaded order and as often as they occur, exactly the students that
   * match the term.
   */
  lemma FilterStudentsSpec(students: seq<StudentRow>, term: string)
    ensures IsSubsequence(FilterStudents(students, term), students)
    ensures forall st :: st in FilterStudents(students, term) <==> st in students && Matches(st, term)
    ensures forall st :: multiset(FilterStudents(students, term))[st]
                         == if Matches(st, term) then multiset(students)[st] else 0
  {
    var p := st => Matches(st, term);
    FilterSpec(p, students);
    forall st ensures st in FilterStudents(students, term) <==> st in students && Matches(st, term) {
      FilterMember(p, students, st);
    }
  }

  predicate HasAnyField(st: StudentRow) {
    st.nombre.Some? || st.modalidad.Some? || st.whatsapp.Some?
  }

  lemma ContainsEmpty(s: string)
    ensures Contains(s, "")
  {
    assert s[..0] == "";
  }

  /** With an empty search box every student that has a name, a modality or a number is listed. */
  lemma EmptyTermKeepsStudentsWithAField(students: seq<StudentRow>)
    ensures forall st :: st in FilterStudents(students, "") <==> st in students && HasAnyField(st)
  {
    forall st ensures Matches(st, "") <==> HasAnyField(st) {
      assert Lower("") == "";
      if st.nombre.Some? { ContainsEmpty(Lower(st.nombre.value)); }
      if st.modalidad.Some? { ContainsEmpty(Lower(st.modalidad.value)); }
      if st.whatsapp.Some? { ContainsEmpty(st.whatsapp.value); }
    }
    FilterStudentsSpec(students, "");
  }

  /** So when every student has a name, the empty search lists them all, in order. */
  lemma EmptyTermListsNamedStudents(students: seq<StudentRow>)
    requires forall k | 0 <= k < |students| :: students[k].nombre.Some?
    ensures FilterStudents(students, "") == students
  {
    assert Lower("") == "";
    forall k | 0 <= k < |students| ensures Matches(students[k], "") {
      ContainsEmpty(Lower(students[k].nombre.value));
    }
    FilterAll(st => Matches(st, ""), students);
  }

  lemma LowerIdempotent(s: string)
    ensures Lower(Lower(s)) == Lower(s)
  {
  }

  /**
   * Name and modality are matched without regard to the case of the term; the number is not, so
   * for a student without a number the term's case does not matter.
   */
  lemma NameMatchIgnoresCase(st: StudentRow, term: string)
    requires st.whatsapp.None?
    ensures Matches(st, term) <==> Matches(st, Lower(term))
  {
    LowerIdempotent(term);
  }

  // ---------------------------------------------------------------- formatDate

  /**
   * `Number(s)` for the strings a date part can be: white space around a run of decimal digits
   * (the empty run reads as 0). Anything else is `NaN`, written `None`.
   */
  function JsNumber(s: string): Option<nat> {
    var t := Trim(s);
    if AllDigits(t) then Some(NumeralValue(t, false)) else None
  }

  /** `Number(parts[i])`, where a missing part is `undefined` and reads as `NaN`. */
  function NumberAt(parts: seq<string>, i: nat): Option<nat> {
    if i < |parts| then JsNumber(parts[i]) else None
  }

  /** `` `${parts.map(Number)[i]}` ``: the number, `NaN`, or `undefined` for a missing part. */
  function PartText(parts: seq<string>, i: nat): string {
    if i < |parts| then
      match JsNumber(parts[i])
      case Some(n) => Decimal(n)
      case None => "NaN"
    else "undefined"
  }

  /** The day-first `d/m/y` text rewritten as `y-mm-dd`, each part passed through `Number`. */
  function DayFirstToIso(s: string): string {
    IsoOf(Split(s, '/'))
  }

  /** `` `${year}-${month.padStart(2, "0")}-${day.padStart(2, "0")}` `` from the `/`-separated parts. */
  function IsoOf(p: seq<string>): string {
    PartText(p, 2) + "-" + PadStart2(PartText(p, 1)) + "-" + PadStart2(PartText(p, 0))
  }

  /**
   * What `formatDate` produces: `N/A`, `Fecha inválida`, or the local date built from the year,
   * month and day numbers (before `Date` normalises them).
   */
  datatype DateOut = NotAvailable | InvalidDate | Local(year: nat, month: nat, day: nat)

  /** `new Date(year, month - 1, day)` is invalid exactly when one of the three is `NaN`. */
  function LocalDate(year: Option<nat>, month: Option<nat>, day: Option<nat>): DateOut {
    if year.Some? && month.Some? && day.Some? then Local(year.value, month.value, day.value)
    else InvalidDate
  }

  /** `formatDate(dateString)`; `None` is an `undefined` field. */
  function FormatDate(dateString: Option<string>): DateOut {
    if dateString.None? || dateString.value == "" then NotAvailable
    else
      var s := if '/' in dateString.value then DayFirstToIso(dateString.value) else dateString.value;
      var parts := Split(s, '-');
      LocalDate(NumberAt(parts, 0), NumberAt(parts, 1), NumberAt(parts, 2))
  }

  /** `Date` maps the years 0 to 99 to 1900 to 1999. */
  function FullYear(y: nat): nat {
    if y <= 99 then 1900 + y else y
  }

  predicate IsLeapYear(y: nat) {
    y % 4 == 0 && (y % 100 != 0 || y % 400 == 0)
  }

  function DaysInMonth(y: nat, m: nat): nat
    requires 1 <= m <= 12
  {
    if m == 2 then (if IsLeapYear(y) then 29 else 28)
    else if m == 4 || m == 6 || m == 9 || m == 11 then 30
    else 31
  }

  /** A month and day that name a real day of year `y`, so `Date` keeps them as given. */
  predicate IsCalendarDate(y: nat, m: nat, d: nat) {
    1 <= m <= 12 && 1 <= d <= DaysInMonth(y, m)
  }

  /** The `es-AR` rendering with two-digit day and month and the year in full. */
  function Display(y: nat, m: nat, d: nat): string
    requires IsCalendarDate(FullYear(y), m, d)
  {
    PadStart2(Decimal(d)) + "/" + PadStart2(Decimal(m)) + "/" + Decimal(FullYear(y))
  }

  /**
   * The text the table shows for a `formatDate` result. A number triple that `Date` would roll
   * over into another day (day 31 of April, month 13) is not rendered by the model.
   */
  function DateText(r: DateOut): Option<string> {
    match r
    case NotAvailable => Some("N/A")
    case InvalidDate => Some("Fecha inválida")
    case Local(y, m, d) => if IsCalendarDate(FullYear(y), m, d) then Some(Display(y, m, d)) else None
  }

  // ---------------------------------------------------------------- formatDate properties

  lemma DigitsWithout(s: string, c: char)
    requires AllDigits(s) && !IsDigit(c)
    ensures c !in s
  {
  }

  /** `Number` reads a digit string as its decimal value. */
  lemma JsNumberDigits(s: string)
    requires AllDigits(s)
    ensures JsNumber(s) == Some(NumeralValue(s, false))
  {
    TrimDigits(s);
  }

  /** `Number(String(n).padStart(2, "0"))` is `n` again. */
  lemma JsNumberPadded(n: nat)
    ensures AllDigits(PadStart2(Decimal(n))) && JsNumber(PadStart2(Decimal(n))) == Some(n)
  {
    var x := Decimal(n);
    DecimalValue(n);
    if |x| < 2 {
      LeadingZero(x);
      assert PadStart2(x) == "0" + x;
    }
    JsNumberDigits(PadStart2(x));
  }

  /** The texts of `NaN` and `undefined` read back as `NaN`. */
  lemma NotANumberTexts()
    ensures JsNumber("NaN") == None && JsNumber("undefined") == None
  {
    assert Trim("NaN") == "NaN";
    assert !IsDigit("NaN"[0]);
    assert Trim("undefined") == "undefined";
    assert !IsDigit("undefined"[0]);
  }

  /** Each rewritten part is free of `-` and reads back as the number it came from. */
  lemma PartTextSpec(p: seq<string>, i: nat)
    ensures '-' !in PartText(p, i) && '-' !in PadStart2(PartText(p, i))
    ensures JsNumber(PartText(p, i)) == NumberAt(p, i)
    ensures JsNumber(PadStart2(PartText(p, i))) == NumberAt(p, i)
  {
    NotANumberTexts();
    if i < |p| && JsNumber(p[i]).Some? {
      var n := JsNumber(p[i]).value;
      DecimalValue(n);
      JsNumberDigits(Decimal(n));
      JsNumberPadded(n);
      DigitsWithout(Decimal(n), '-');
      DigitsWithout(PadStart2(Decimal(n)), '-');
    }
  }

  /**
   * A date containing `/` is read day first: its third, second and first `/`-separated parts are
   * the year, month and day, a part that is missing or not a number making the date invalid.
   */
  lemma DayFirstParts(s: string)
    requires '/' in s
    ensures var p := Split(s, '/');
            FormatDate(Some(s)) == LocalDate(NumberAt(p, 2), NumberAt(p, 1), NumberAt(p, 0))
  {
    var p := Split(s, '/');
    IsoSplit(p);
    PartTextSpec(p, 0);
    PartTextSpec(p, 1);
    PartTextSpec(p, 2);
  }

  /** The rewritten text splits at `-` into its three rewritten parts. */
  lemma IsoSplit(p: seq<string>)
    ensures Split(IsoOf(p), '-') == [PartText(p, 2), PadStart2(PartText(p, 1)), PadStart2(PartText(p, 0))]
  {
    var a, b, c := PartText(p, 2), PadStart2(PartText(p, 1)), PadStart2(PartText(p, 0));
    PartTextSpec(p, 0);
    PartTextSpec(p, 1);
    PartTextSpec(p, 2);
    SplitThree(a, b, c, '-');
  }

  /** `15/03/2024` and `2024-03-15` (or `2024-3-15`) denote the same local date. */
  lemma DayFirstSameAsIso(d: string, m: string, y: string)
    requires AllDigits(d) && AllDigits(m) && AllDigits(y)
    ensures FormatDate(Some(d + "/" + m + "/" + y))
            == Local(NumeralValue(y, false), NumeralValue(m, false), NumeralValue(d, false))
    ensures FormatDate(Some(y + "-" + m + "-" + d)) == FormatDate(Some(d + "/" + m + "/" + y))
  {
    DayFirstDigits(d, m, y);
    IsoDigits(y, m, d);
  }

  lemma DayFirstDigits(d: string, m: string, y: string)
    requires AllDigits(d) && AllDigits(m) && AllDigits(y)
    ensures FormatDate(Some(d + "/" + m + "/" + y))
            == Local(NumeralValue(y, false), NumeralValue(m, false), NumeralValue(d, false))
  {
    var s := d + "/" + m + "/" + y;
    assert Split(s, '/') == [d, m, y] by {
      DigitsWithout(d, '/');
      DigitsWithout(m, '/');
      DigitsWithout(y, '/');
      SplitThree(d, m, y, '/');
    }
    assert s[|d|] == '/';
    DayFirstParts(s);
    JsNumberDigits(d);
    JsNumberDigits(m);
    JsNumberDigits(y);
  }

  lemma IsoDigits(y: string, m: string, d: string)
    requires AllDigits(d) && AllDigits(m) && AllDigits(y)
    ensures FormatDate(Some(y + "-" + m + "-" + d))
            == Local(NumeralValue(y, false), NumeralValue(m, false), NumeralValue(d, false))
  {
    var s := y + "-" + m + "-" + d;
    assert '/' !in s by {
      DigitsWithout(d, '/');
      DigitsWithout(m, '/');
      DigitsWithout(y, '/');
    }
    assert Split(s, '-') == [y, m, d] by {
      DigitsWithout(d, '-');
      DigitsWithout(m, '-');
      DigitsWithout(y, '-');
      SplitThree(y, m, d, '-');
    }
    JsNumberDigits(d);
    JsNumberDigits(m);
    JsNumberDigits(y);
  }

  /** A date with a part that is not a number is shown as invalid. */
  lemma NonNumericPartInvalid(y: string, m: string, d: string)
    requires '/' !in y + "-" + m + "-" + d && '-' !in y && '-' !in m && '-' !in d
    requires JsNumber(y).None? || JsNumber(m).None? || JsNumber(d).None?
    ensures FormatDate(Some(y + "-" + m + "-" + d)) == InvalidDate
  {
    SplitThree(y, m, d, '-');
  }

  /** A date with fewer than three `-`-separated parts is shown as invalid. */
  lemma MissingPartInvalid(s: string)
    requires s != "" && '/' !in s && |Split(s, '-')| < 3
    ensures FormatDate(Some(s)) == InvalidDate
  {
  }

  /** Day and month are shown with two digits, between slashes, before the full year. */
  lemma DisplayShape(y: nat, m: nat, d: nat)
    requires IsCalendarDate(FullYear(y), m, d)
    ensures var t := Display(y, m, d);
            && |t| == 6 + |Decimal(FullYear(y))| && t[2] == '/' && t[5] == '/'
            && AllDigits(t[..2]) && AllDigits(t[3..5]) && t[6..] == Decimal(FullYear(y))
            && JsNumber(t[..2]) == Some(d) && JsNumber(t[3..5]) == Some(m)
  {
    TwoDigits(d);
    TwoDigits(m);
    JsNumberPadded(d);
    JsNumberPadded(m);
    SlashedParts(PadStart2(Decimal(d)), PadStart2(Decimal(m)), Decimal(FullYear(y)));
  }

  /** Where the pieces of `a/b/c` sit, for two-character `a` and `b`. */
  lemma SlashedParts(a: string, b: string, c: string)
    requires |a| == 2 && |b| == 2
    ensures var t := a + "/" + b + "/" + c;
            && |t| == 6 + |c| && t[2] == '/' && t[5] == '/' && t[..2] == a && t[3..5] == b && t[6..] == c
  {
  }

  lemma TwoDigits(n: nat)
    requires n < 100
    ensures |PadStart2(Decimal(n))| == 2
  {
    if n >= 10 {
      assert Decimal(n) == Decimal(n / 10) + [DigitChar(n % 10)];
    }
  }

  /**
   * Formatting the text the table shows gives back the same date, so the shown text is a fixed
   * point: its rendering is that text again.
   */
  lemma DisplayRoundTrip(y: nat, m: nat, d: nat)
    requires IsCalendarDate(FullYear(y), m, d)
    ensures FormatDate(Some(Display(y, m, d))) == Local(FullYear(y), m, d)
    ensures DateText(FormatDate(Some(Display(y, m, d)))) == Some(Display(y, m, d))
  {
    var a, b, c := PadStart2(Decimal(d)), PadStart2(Decimal(m)), Decimal(FullYear(y));
    JsNumberPadded(d);
    JsNumberPadded(m);
    DecimalValue(FullYear(y));
    JsNumberDigits(c);
    DigitsWithout(a, '/');
    DigitsWithout(b, '/');
    DigitsWithout(c, '/');
    var t := Display(y, m, d);
    assert t == a + ['/'] + b + ['/'] + c;
    assert t[|a|] == '/';
    SplitThree(a, b, c, '/');
    DayFirstParts(t);
  }
}
