/**
 * The overdue-reminder job: a pass over the students that collects those whose latest payment
 * due date has passed, then one reminder mail per collected student, and a reply with how many
 * there were. Due dates are millisecond timestamps and "now" is a parameter; the database query
 * and the mail transport are outside the model.
 */
module OverdueReminders {
  import opened Wrappers
  import opened Lists

  const MsPerDay := 1000 * 60 * 60 * 24

  /** A row of `alumnos` with the due dates of its `pagos`; an empty `email` stands for a missing one. */
  datatype Alumno = Alumno(nombre: string, email: string, modalidad: string, pagos: seq<int>)

  /** An entry of `alumnosVencidos`; `vencimiento` is the latest due date the entry was built from. */
  datatype Entry = Entry(
    nombre: string, email: string, modalidad: string, vencimiento: int, diasVencido: int, estado: string)

  /** The first element once the due dates are sorted newest first: the latest due date. */
  function Latest(dues: seq<int>): (m: int)
    requires |dues| > 0
    ensures m in dues
    ensures forall k | 0 <= k < |dues| :: dues[k] <= m
  {
    if |dues| == 1 then dues[0]
    else
      var rest := Latest(dues[1..]);
      assert forall k | 1 <= k < |dues| :: dues[k] == dues[1..][k - 1];
      if dues[0] >= rest then dues[0] else rest
  }

  /** The student is skipped unless it has an email and at least one payment. */
  predicate Skipped(a: Alumno) {
    a.email == "" || |a.pagos| == 0
  }

  /** The student is listed: not skipped, and its latest due date is no later than now. */
  predicate Qualifies(a: Alumno, now: int) {
    !Skipped(a) && Latest(a.pagos) <= now
  }

  /**
   * `Math.floor((hoy - ultimoVencimiento) / MsPerDay)`; Dafny's division by a positive divisor
   * rounds down, as `Math.floor` does.
   */
  function DaysOverdue(latest: int, now: int): int {
    (now - latest) / MsPerDay
  }

  function MakeEntry(a: Alumno, now: int): Entry
    requires |a.pagos| > 0
  {
    var latest := Latest(a.pagos);
    Entry(a.nombre, a.email, a.modalidad, latest, DaysOverdue(latest, now), "VENCIDO")
  }

  /** What one iteration of the selection loop appends. */
  function EntryFor(a: Alumno, now: int): seq<Entry> {
    if Skipped(a) then [] else if Latest(a.pagos) <= now then [MakeEntry(a, now)] else []
  }

  /** The list the selection loop builds. */
  function OverdueList(alumnos: seq<Alumno>, now: int): seq<Entry>
    decreases |alumnos|
  {
    if |alumnos| == 0 then [] else EntryFor(alumnos[0], now) + OverdueList(alumnos[1..], now)
  }

  /** One iteration: appending what the student contributes moves the loop's split point by one. */
  lemma OverdueListStep(alumnos: seq<Alumno>, i: nat, now: int, done: seq<Entry>, added: seq<Entry>)
    requires i < |alumnos| && added == EntryFor(alumnos[i], now)
    requires done + OverdueList(alumnos[i..], now) == OverdueList(alumnos, now)
    ensures (done + added) + OverdueList(alumnos[i + 1..], now) == OverdueList(alumnos, now)
  {
    var rest := alumnos[i..];
    assert rest[0] == alumnos[i] && rest[1..] == alumnos[i + 1..];
    assert OverdueList(rest, now) == added + OverdueList(alumnos[i + 1..], now);
    assert done + (added + OverdueList(alumnos[i + 1..], now)) == (done + added) + OverdueList(alumnos[i + 1..], now);
  }

  /** The selection loop over `alumnos`, with `continue` for skipped students. */
  method SelectOverdue(alumnos: seq<Alumno>, now: int) returns (vencidos: seq<Entry>)
    ensures vencidos == OverdueList(alumnos, now)
  {
    vencidos := [];
    var i := 0;
    while i < |alumnos|
      invariant 0 <= i <= |alumnos|
      invariant vencidos + OverdueList(alumnos[i..], now) == OverdueList(alumnos, now)
    {
      var alumno := alumnos[i];
      if alumno.email == "" || |alumno.pagos| == 0 {
        OverdueListStep(alumnos, i, now, vencidos, []);
        assert vencidos + [] == vencidos;
        i := i + 1;
        continue;
      }
      var ultimo := Latest(alumno.pagos);
      if ultimo <= now {
        var dias := DaysOverdue(ultimo, now);
        var entry := Entry(alumno.nombre, alumno.email, alumno.modalidad, ultimo, dias, "VENCIDO");
        OverdueListStep(alumnos, i, now, vencidos, [entry]);
        vencidos := vencidos + [entry];
      } else {
        OverdueListStep(alumnos, i, now, vencidos, []);
        assert vencidos + [] == vencidos;
      }
      i := i + 1;
    }
    assert alumnos[i..] == [];
  }

  /**
   * The list is the entries of exactly the qualifying students, in input order: one entry per
   * qualifying student, built from that student.
   */
  lemma {:induction false} OverdueListIsFilter(alumnos: seq<Alumno>, now: int)
    ensures var f := Filter((a: Alumno) => Qualifies(a, now), alumnos);
            && |OverdueList(alumnos, now)| == |f|
            && forall k | 0 <= k < |f| :: Qualifies(f[k], now) && OverdueList(alumnos, now)[k] == MakeEntry(f[k], now)
    decreases |alumnos|
  {
    var q := (a: Alumno) => Qualifies(a, now);
    if |alumnos| > 0 {
      OverdueListIsFilter(alumnos[1..], now);
      var f, g := Filter(q, alumnos), Filter(q, alumnos[1..]);
      var l, m := OverdueList(alumnos, now), OverdueList(alumnos[1..], now);
      if q(alumnos[0]) {
        assert f == [alumnos[0]] + g;
        assert l == [MakeEntry(alumnos[0], now)] + m;
        forall k | 0 <= k < |f| ensures Qualifies(f[k], now) && l[k] == MakeEntry(f[k], now) {
          if k > 0 {
            assert f[k] == g[k - 1] && l[k] == m[k - 1];
          }
        }
      } else {
        assert f == g;
        assert l == m;
      }
    }
  }

  /**
   * The entry of a listed student carries its name, email and plan, `estado` "VENCIDO", the
   * latest of its due dates and the whole days since then.
   */
  lemma MakeEntrySpec(a: Alumno, now: int)
    requires Qualifies(a, now)
    ensures var e := MakeEntry(a, now);
            && e.nombre == a.nombre && e.email == a.email && e.email != "" && e.modalidad == a.modalidad
            && e.estado == "VENCIDO"
            && e.vencimiento in a.pagos && e.vencimiento <= now
            && (forall k | 0 <= k < |a.pagos| :: a.pagos[k] <= e.vencimiento)
            && e.diasVencido >= 0
            && e.diasVencido * MsPerDay <= now - e.vencimiento < (e.diasVencido + 1) * MsPerDay
  {
    DaysOverdueSpec(Latest(a.pagos), now);
  }

  /** Every student that has an email, has payments and whose latest due date is no later than now is listed. */
  lemma QualifyingListed(alumnos: seq<Alumno>, now: int, i: nat)
    requires i < |alumnos| && Qualifies(alumnos[i], now)
    ensures MakeEntry(alumnos[i], now) in OverdueList(alumnos, now)
  {
    var q := (a: Alumno) => Qualifies(a, now);
    var f := Filter(q, alumnos);
    OverdueListIsFilter(alumnos, now);
    FilterMember(q, alumnos, alumnos[i]);
    var k :| 0 <= k < |f| && f[k] == alumnos[i];
    assert OverdueList(alumnos, now)[k] == MakeEntry(alumnos[i], now);
  }

  /** Every entry is the entry of a student that has an email, has payments and whose latest due date is no later than now. */
  lemma ListedQualifies(alumnos: seq<Alumno>, now: int, k: nat)
    requires k < |OverdueList(alumnos, now)|
    ensures exists i | 0 <= i < |alumnos| :: Qualifies(alumnos[i], now)
                                             && OverdueList(alumnos, now)[k] == MakeEntry(alumnos[i], now)
  {
    var q := (a: Alumno) => Qualifies(a, now);
    var f := Filter(q, alumnos);
    OverdueListIsFilter(alumnos, now);
    assert f[k] in f;
    FilterMember(q, alumnos, f[k]);
    var i :| 0 <= i < |alumnos| && alumnos[i] == f[k];
    assert Qualifies(alumnos[i], now) && OverdueList(alumnos, now)[k] == MakeEntry(alumnos[i], now);
  }

  /**
   * A student is listed exactly when it has an email, has payments and its latest due date is
   * no later than now; each entry is some such student's, with `estado` "VENCIDO", the student's
   * name, email and plan, its latest due date and a non-negative day count. There are no more
   * entries than students.
   */
  lemma OverdueListSpec(alumnos: seq<Alumno>, now: int)
    ensures forall i | 0 <= i < |alumnos| && Qualifies(alumnos[i], now) ::
              MakeEntry(alumnos[i], now) in OverdueList(alumnos, now)
    ensures forall k | 0 <= k < |OverdueList(alumnos, now)| ::
              exists i | 0 <= i < |alumnos| :: Qualifies(alumnos[i], now)
                                               && OverdueList(alumnos, now)[k] == MakeEntry(alumnos[i], now)
    ensures forall k | 0 <= k < |OverdueList(alumnos, now)| ::
              var e := OverdueList(alumnos, now)[k];
              e.estado == "VENCIDO" && e.email != "" && e.diasVencido >= 0 && e.vencimiento <= now
    ensures |OverdueList(alumnos, now)| <= |alumnos|
  {
    var l := OverdueList(alumnos, now);
    forall i | 0 <= i < |alumnos| && Qualifies(alumnos[i], now) ensures MakeEntry(alumnos[i], now) in l {
      QualifyingListed(alumnos, now, i);
    }
    forall k | 0 <= k < |l|
      ensures exists i | 0 <= i < |alumnos| :: Qualifies(alumnos[i], now) && l[k] == MakeEntry(alumnos[i], now)
      ensures l[k].estado == "VENCIDO" && l[k].email != "" && l[k].diasVencido >= 0 && l[k].vencimiento <= now
    {
      ListedQualifies(alumnos, now, k);
      var i :| 0 <= i < |alumnos| && Qualifies(alumnos[i], now) && l[k] == MakeEntry(alumnos[i], now);
      MakeEntrySpec(alumnos[i], now);
    }
    var q := (a: Alumno) => Qualifies(a, now);
    OverdueListIsFilter(alumnos, now);
    FilterLength(q, alumnos);
  }

  /** The day count is the whole number of days between the due date and now, rounded down. */
  lemma DaysOverdueSpec(latest: int, now: int)
    requires latest <= now
    ensures DaysOverdue(latest, now) >= 0
    ensures DaysOverdue(latest, now) * MsPerDay <= now - latest < (DaysOverdue(latest, now) + 1) * MsPerDay
  {
  }

  /** A due date equal to now is overdue by zero days. */
  lemma DueTodayIsOverdue(a: Alumno, now: int)
    requires !Skipped(a) && Latest(a.pagos) == now
    ensures MakeEntry(a, now) in OverdueList([a], now)
    ensures MakeEntry(a, now).diasVencido == 0
  {
    assert OverdueList([a], now) == [MakeEntry(a, now)] + OverdueList([a][1..], now);
  }

  // ---------------------------------------------------------------- sending

  /** The arguments of one `sendEmailVencidoSMTP` call. */
  datatype Mail = Mail(to: string, nombre: string, estado: string, vencimiento: int, modalidad: string)

  function MailFor(e: Entry): Mail {
    Mail(e.email, e.nombre, e.estado, e.vencimiento, e.modalidad)
  }

  /** The reply `{ message: "Proceso finalizado", vencidos }`. */
  datatype Reply = Reply(message: string, vencidos: nat)

  /**
   * The sending loop, when every send succeeds: one mail per listed student, in list order,
   * and `enviados` counting them.
   */
  method SendReminders(vencidos: seq<Entry>) returns (mails: seq<Mail>, enviados: nat)
    ensures |mails| == |vencidos| && enviados == |vencidos|
    ensures forall k | 0 <= k < |vencidos| :: mails[k] == MailFor(vencidos[k])
  {
    mails := [];
    enviados := 0;
    for i := 0 to |vencidos|
      invariant |mails| == i && enviados == i
      invariant forall k | 0 <= k < i :: mails[k] == MailFor(vencidos[k])
    {
      var alumno := vencidos[i];
      mails := mails + [Mail(alumno.email, alumno.nombre, alumno.estado, alumno.vencimiento, alumno.modalidad)];
      enviados := enviados + 1;
    }
  }

  /**
   * `enviarRecordatoriosVencidos` for what the query returned (`None` when it reported an
   * error): every listed student is mailed once, with `estado` "VENCIDO", and the reply counts
   * the listed students; a failed query mails no one and answers 500.
   */
  method EnviarRecordatorios(query: Option<seq<Alumno>>, now: int) returns (reply: Response<Reply>, mails: seq<Mail>)
    ensures query.None? ==> reply == Status(500, "Error enviando recordatorios") && mails == []
    ensures query.Some? ==> reply == Ok(Reply("Proceso finalizado", |OverdueList(query.value, now)|))
    ensures query.Some? ==> |mails| == |OverdueList(query.value, now)|
    ensures query.Some? ==>
              forall k | 0 <= k < |mails| ::
                mails[k] == MailFor(OverdueList(query.value, now)[k]) && mails[k].estado == "VENCIDO"
  {
    if query.None? {
      return Status(500, "Error enviando recordatorios"), [];
    }
    var alumnos := query.value;
    var vencidos := SelectOverdue(alumnos, now);
    OverdueListSpec(alumnos, now);
    var enviados;
    mails, enviados := SendReminders(vencidos);
    reply := Ok(Reply("Proceso finalizado", |vencidos|));
  }
}
