/**
 * The edit-student dialog's form state: loading a student turns its stored schedule text back
 * into day check boxes and a time, and the change handlers replace one field at a time.
 */
module EditStudent {
  import opened Wrappers
  import opened Text
  import opened Weekdays
  import opened ClientsSheet

  // ---------------------------------------------------------------- parsing the schedule text

  /** The day check boxes read back from the schedule text by `includes` tests. */
  function ParseSchedule(str: string): WeekSchedule {
    WeekSchedule(
      Contains(str, "Lun"),
      Contains(str, "Mar"),
      Contains(str, "Mié") || Contains(str, "Mie"),
      Contains(str, "Jue"),
      Contains(str, "Vie"),
      Contains(str, "Sáb") || Contains(str, "Sab"),
      Contains(str, "Dom"))
  }

  /** A time as the time input produces it: `HH:MM`, or `H:MM`. */
  predicate IsClockTime(t: string) {
    || (|t| == 5 && IsDigit(t[0]) && IsDigit(t[1]) && t[2] == ':' && IsDigit(t[3]) && IsDigit(t[4]))
    || (|t| == 4 && IsDigit(t[0]) && t[1] == ':' && IsDigit(t[2]) && IsDigit(t[3]))
  }

  /**
   * The length of the match of `/\d{1,2}:\d{2}/` starting at `q`, if any: the greedy two-digit
   * hour is tried before the one-digit one.
   */
  function MatchAt(s: string, q: nat): (r: Option<nat>)
    ensures r.Some? ==> q + r.value <= |s| && IsClockTime(s[q..q + r.value])
  {
    if q + 5 <= |s| && IsDigit(s[q]) && IsDigit(s[q + 1]) && s[q + 2] == ':' && IsDigit(s[q + 3]) && IsDigit(s[q + 4])
    then Some(5)
    else if q + 4 <= |s| && IsDigit(s[q]) && s[q + 1] == ':' && IsDigit(s[q + 2]) && IsDigit(s[q + 3])
    then Some(4)
    else None
  }

  /** The leftmost position from `p` on where the time pattern matches. */
  function FirstMatch(s: string, p: nat): (r: Option<nat>)
    requires p <= |s|
    ensures r.Some? ==> p <= r.value < |s| && MatchAt(s, r.value).Some?
    ensures forall q | p <= q < (if r.Some? then r.value else |s|) :: MatchAt(s, q).None?
    decreases |s| - p
  {
    if p == |s| then None else if MatchAt(s, p).Some? then Some(p) else FirstMatch(s, p + 1)
  }

  /** `timeMatch ? timeMatch[1] : ""`: the leftmost time in the text, or `""` when there is none. */
  function TimeOf(s: string): (t: string)
    ensures t == "" || IsClockTime(t)
  {
    match FirstMatch(s, 0)
    case None => ""
    case Some(q) => s[q..q + MatchAt(s, q).value]
  }

  lemma {:induction false} FirstMatchAt(s: string, p: nat, k: nat)
    requires p <= k < |s| && MatchAt(s, k).Some?
    requires forall q | p <= q < k :: MatchAt(s, q).None?
    ensures FirstMatch(s, p) == Some(k)
    decreases k - p
  {
    if p < k {
      FirstMatchAt(s, p + 1, k);
    }
  }

  /** After text without digits, the time found is the clock time that follows it. */
  lemma TimeAfterText(prefix: string, t: string)
    requires NoDigit(prefix) && IsClockTime(t)
    ensures TimeOf(prefix + t) == t
  {
    var s := prefix + t;
    var k := |prefix|;
    forall q | 0 <= q < k ensures MatchAt(s, q).None? {
      assert s[q] == prefix[q];
    }
    assert s[k..] == t;
    assert MatchAt(s, k) == Some(|t|);
    FirstMatchAt(s, 0, k);
    assert s[k..k + |t|] == t;
  }

  /** Text without digits holds no time. */
  lemma NoTimeInText(s: string)
    requires NoDigit(s)
    ensures TimeOf(s) == ""
  {
    forall q | 0 <= q < |s| ensures MatchAt(s, q).None? {
      assert !IsDigit(s[q]);
    }
  }

  // ---------------------------------------------------------------- the round trip

  /** The days part of a schedule string has no digits. */
  lemma DaysTextNoDigit(s: WeekSchedule)
    ensures NoDigit(DaysText(s))
  {
    var days := SelectedDays(s);
    var parts := SelectedAbbrevs(s);
    forall k | 0 <= k < |parts| ensures NoDigit(parts[k]) {
      AbbrevShape(days[k]);
    }
    NoDigitJoin(parts, ", ");
  }

  /** With a day ticked, the stored text is the days part, a space, and `"- "` with the time. */
  lemma BuiltShape(s: WeekSchedule, time: string)
    requires s.AnySelected()
    ensures AddScheduleString(s, time) == DaysText(s) + [' '] + ("-" + [' '] + time)
  {
    ScheduleStrings(s, time);
    var days := DaysText(s);
    assert days + " - " + time == days + [' '] + ("-" + [' '] + time);
  }

  /** A word that starts with a letter does not occur in the `"- "` + time tail. */
  lemma TimeTailAbsent(time: string, w: string)
    requires IsClockTime(time)
    requires |w| > 1 && !IsDigit(w[0]) && w[0] != ':' && ' ' !in w
    ensures !Contains("-" + [' '] + time, w)
  {
    ContainsAround("-", ' ', time, w);
    assert w[0] !in time;
    AbsentFirstChar(time, w);
  }

  /**
   * A word that starts with no digit or colon and has no space occurs in a built schedule
   * string exactly when it occurs in its days part.
   */
  lemma ScheduleContainsDays(s: WeekSchedule, time: string, w: string)
    requires s.AnySelected() && IsClockTime(time)
    requires |w| > 1 && !IsDigit(w[0]) && w[0] != ':' && ' ' !in w
    ensures Contains(AddScheduleString(s, time), w) <==> Contains(DaysText(s), w)
  {
    BuiltShape(s, time);
    ContainsAround(DaysText(s), ' ', "-" + [' '] + time, w);
    TimeTailAbsent(time, w);
  }

  /**
   * A three-letter word without commas or spaces occurs in the days part exactly when it reads
   * back as a ticked day.
   */
  lemma DaysTextContains(s: WeekSchedule, w: string)
    requires |w| == 3 && ',' !in w && ' ' !in w
    ensures Contains(DaysText(s), w) <==> DayOfAbbrev(w).Some? && s.Get(DayOfAbbrev(w).value)
  {
    DaysTextListed(s, w);
    ListedAbbrev(s, w);
  }

  /** A word of three letters occurs in the joined days exactly when it is one of the parts. */
  lemma DaysTextListed(s: WeekSchedule, w: string)
    requires |w| == 3 && ',' !in w && ' ' !in w
    ensures Contains(DaysText(s), w) <==> w in SelectedAbbrevs(s)
  {
    var days := SelectedDays(s);
    var parts := SelectedAbbrevs(s);
    ContainsJoin(parts, w);
    if Contains(DaysText(s), w) {
      var k :| 0 <= k < |parts| && Contains(parts[k], w);
      AbbrevShape(days[k]);
      ContainsSameLength(parts[k], w);
    }
    if w in parts {
      var k :| 0 <= k < |parts| && parts[k] == w;
      ContainsSameLength(parts[k], w);
    }
  }

  /** A part of the joined days is the abbreviation of a ticked day, and every such one is a part. */
  lemma ListedAbbrev(s: WeekSchedule, w: string)
    ensures w in SelectedAbbrevs(s) <==> DayOfAbbrev(w).Some? && s.Get(DayOfAbbrev(w).value)
  {
    var days := SelectedDays(s);
    var parts := SelectedAbbrevs(s);
    if w in parts {
      var k :| 0 <= k < |parts| && parts[k] == w;
      AbbrevInjective(days[k], days[k]);
      AbbrevListed(s, days[k]);
    }
    if DayOfAbbrev(w).Some? {
      AbbrevListed(s, DayOfAbbrev(w).value);
    }
  }

  /**
   * A three-letter word that starts with no digit or colon and has no comma or space occurs in
   * a built schedule string exactly when it reads back as a ticked day.
   */
  lemma ScheduleContains(s: WeekSchedule, time: string, w: string)
    requires s.AnySelected() && IsClockTime(time)
    requires |w| == 3 && !IsDigit(w[0]) && w[0] != ':' && ',' !in w && ' ' !in w
    ensures Contains(AddScheduleString(s, time), w) <==> DayOfAbbrev(w).Some? && s.Get(DayOfAbbrev(w).value)
  {
    ScheduleContainsDays(s, time, w);
    DaysTextContains(s, w);
  }

  /** A day's abbreviation occurs in a stored schedule text exactly when the day is ticked. */
  lemma AbbrevRoundTrip(s: WeekSchedule, time: string, d: Weekday)
    requires s.AnySelected() && IsClockTime(time)
    ensures Contains(AddScheduleString(s, time), Abbrev(d)) <==> s.Get(d)
  {
    AbbrevShape(d);
    AbbrevInjective(d, d);
    ScheduleContains(s, time, Abbrev(d));
  }

  /** The unaccented spellings the form also tests never occur in a stored schedule text. */
  lemma UnaccentedAbsent(s: WeekSchedule, time: string)
    requires s.AnySelected() && IsClockTime(time)
    ensures !Contains(AddScheduleString(s, time), "Mie") && !Contains(AddScheduleString(s, time), "Sab")
  {
    var mie, sab := "Mie", "Sab";
    assert DayOfAbbrev(mie).None? && mie[0] == 'M' && ',' !in mie && ' ' !in mie;
    assert DayOfAbbrev(sab).None? && sab[0] == 'S' && ',' !in sab && ' ' !in sab;
    ScheduleContains(s, time, mie);
    ScheduleContains(s, time, sab);
  }

  /** One day's check box comes back from the stored text as it was ticked. */
  lemma DayRoundTrip(s: WeekSchedule, time: string, d: Weekday)
    requires s.AnySelected() && IsClockTime(time)
    ensures ParseSchedule(AddScheduleString(s, time)).Get(d) == s.Get(d)
  {
    AbbrevRoundTrip(s, time, d);
    UnaccentedAbsent(s, time);
  }

  /**
   * Parsing the text `addClientToSheet` stores for at least one ticked day and a clock time
   * gives back those days and that time.
   */
  lemma ScheduleRoundTrip(s: WeekSchedule, time: string)
    requires s.AnySelected() && IsClockTime(time)
    ensures ParseSchedule(AddScheduleString(s, time)) == s
    ensures TimeOf(AddScheduleString(s, time)) == time
  {
    forall d ensures ParseSchedule(AddScheduleString(s, time)).Get(d) == s.Get(d) {
      DayRoundTrip(s, time, d);
    }
    ScheduleExt(ParseSchedule(AddScheduleString(s, time)), s);
    ScheduleStrings(s, time);
    DaysTextNoDigit(s);
    var prefix := DaysText(s) + " - ";
    assert AddScheduleString(s, time) == prefix + time;
    assert NoDigit(prefix) by {
      forall i | 0 <= i < |prefix| ensures !IsDigit(prefix[i]) {
        if i < |DaysText(s)| {
          assert prefix[i] == DaysText(s)[i];
        }
      }
    }
    TimeAfterText(prefix, time);
  }

  /** Text without the capitals the day names start with parses to no days. */
  lemma NoDayInitials(str: string)
    requires 'L' !in str && 'M' !in str && 'J' !in str && 'V' !in str && 'S' !in str && 'D' !in str
    ensures ParseSchedule(str) == NoDays
  {
    AbsentFirstChar(str, "Lun");
    AbsentFirstChar(str, "Mar");
    AbsentFirstChar(str, "Mié");
    AbsentFirstChar(str, "Mie");
    AbsentFirstChar(str, "Jue");
    AbsentFirstChar(str, "Vie");
    AbsentFirstChar(str, "Sáb");
    AbsentFirstChar(str, "Sab");
    AbsentFirstChar(str, "Dom");
  }

  /** The text stored when no day is ticked parses to no days ... */
  lemma NotDefinedNoDays()
    ensures ParseSchedule("No definido") == NoDays
  {
    NoDayInitials("No definido");
  }

  /** ... and to no time. */
  lemma NotDefinedNoTime()
    ensures TimeOf("No definido") == ""
  {
    NoTimeInText("No definido");
  }

  // ---------------------------------------------------------------- the form

  /** The `Student` the dialog is opened with. */
  datatype Student = Student(
    id: string, name: string, modality: string, birthDate: string, whatsapp: string,
    schedule: string, lastTraining: string, attendance: string, planUrl: string)

  /** The text inputs of the form, by their `name` attribute (the modality select included). */
  datatype TextField = Name | Modality | BirthDate | Whatsapp | PlanUrl | Time

  datatype FormData = FormData(
    name: string, modality: string, birthDate: string, whatsapp: string, planUrl: string,
    schedule: WeekSchedule, time: string)
  {
    function Get(f: TextField): string {
      match f
      case Name => name
      case Modality => modality
      case BirthDate => birthDate
      case Whatsapp => whatsapp
      case PlanUrl => planUrl
      case Time => time
    }

    /** `{ ...prev, [name]: value }`. */
    function Set(f: TextField, value: string): (r: FormData)
      ensures r.Get(f) == value
      ensures forall g :: g != f ==> r.Get(g) == Get(g)
      ensures r.schedule == schedule
    {
      match f
      case Name => this.(name := value)
      case Modality => this.(modality := value)
      case BirthDate => this.(birthDate := value)
      case Whatsapp => this.(whatsapp := value)
      case PlanUrl => this.(planUrl := value)
      case Time => this.(time := value)
    }
  }

  /** The form's initial state: empty text, no day ticked. */
  const EmptyForm := FormData("", "", "", "", "", NoDays, "")

  /** The form state the load effect sets for a student. */
  function Loaded(st: Student): FormData {
    FormData(st.name, st.modality, st.birthDate, st.whatsapp, st.planUrl, ParseSchedule(st.schedule), TimeOf(st.schedule))
  }

  /**
   * Loading a student whose schedule was stored by an add, for at least one ticked day and a
   * clock time, fills the check boxes and time the add was given; the text fields are the
   * student's.
   */
  lemma LoadedRoundTrip(st: Student, s: WeekSchedule, time: string)
    requires s.AnySelected() && IsClockTime(time) && st.schedule == AddScheduleString(s, time)
    ensures Loaded(st) == FormData(st.name, st.modality, st.birthDate, st.whatsapp, st.planUrl, s, time)
  {
    ScheduleRoundTrip(s, time);
  }

  /** The dialog's form state and its handlers. */
  class EditStudentForm {
    var formData: FormData

    constructor ()
      ensures formData == EmptyForm
    {
      formData := EmptyForm;
    }

    /** The load effect: when the dialog is open and has a student, the form is filled from it. */
    method LoadStudent(open: bool, student: Option<Student>)
      modifies this
      ensures open && student.Some? ==> formData == Loaded(student.value)
      ensures !(open && student.Some?) ==> formData == old(formData)
    {
      if open && student.Some? {
        var st := student.value;
        var scheduleDays := ParseSchedule(st.schedule);
        var time := TimeOf(st.schedule);
        formData := FormData(st.name, st.modality, st.birthDate, st.whatsapp, st.planUrl, scheduleDays, time);
      }
    }

    /** `handleChange` and `handleSelectChange`: one text field takes the new value. */
    method HandleChange(field: TextField, value: string)
      modifies this
      ensures formData.Get(field) == value
      ensures forall g :: g != field ==> formData.Get(g) == old(formData).Get(g)
      ensures formData.schedule == old(formData).schedule
    {
      formData := formData.Set(field, value);
    }

    /** `handleScheduleChange`: one day's check box takes the new value; nothing else changes. */
    method HandleScheduleChange(day: Weekday, checked: bool)
      modifies this
      ensures formData.schedule.Get(day) == checked
      ensures forall e :: e != day ==> formData.schedule.Get(e) == old(formData).schedule.Get(e)
      ensures forall g :: formData.Get(g) == old(formData).Get(g)
    {
      formData := formData.(schedule := formData.schedule.With(day, checked));
    }
  }
}
