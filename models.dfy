/** The model layer of the clinic application (home/models.py): the patient
    record and its unique mobile number, the enumerated states of
    appointments and notifications with their defaults, the date check that
    a notification must pass before it is stored, and the `__str__`
    renderings of patients, notification numbers and notifications. */
module Models {
  import opened Wrappers
  import opened Strings

  // ---------------------------------------------------------------- Paciente

  /** A stored patient. `pk` is the auto-increment primary key; the creation
      and update timestamps are not modelled. */
  datatype Paciente = Paciente(pk: nat, nombre: string, apellido: string, movil: string, activo: bool)

  /** The default of `Paciente.activo`. */
  const ACTIVO_DEFAULT: bool := true

  /** A new patient row, with the field defaults applied. */
  function NewPaciente(pk: nat, nombre: string, apellido: string, movil: string): (p: Paciente)
    ensures p.pk == pk && p.nombre == nombre && p.apellido == apellido && p.movil == movil
    ensures p.activo
  {
    Paciente(pk, nombre, apellido, movil, ACTIVO_DEFAULT)
  }

  /** The unique constraint on `Paciente.movil`: no two rows of the table
      share a mobile number. */
  predicate UniqueMovil(ps: seq<Paciente>) {
    forall i, j :: 0 <= i < j < |ps| ==> ps[i].movil != ps[j].movil
  }

  /** `Paciente.__str__`: first name, a space, last name. */
  function PacienteStr(p: Paciente): (r: string) {
    p.nombre + " " + p.apellido
  }

  /** The rendering is the first name, one space and the last name, whatever
      the names hold. */
  lemma PacienteStrShowsNames(p: Paciente)
    ensures var s := PacienteStr(p);
      && |s| == |p.nombre| + 1 + |p.apellido|
      && s[..|p.nombre|] == p.nombre && s[|p.nombre|] == ' ' && s[|p.nombre| + 1..] == p.apellido
  {
  }

  /** The rendering keeps both names: when the first name has no space, the
      first space of the rendering separates the first name from the last. */
  lemma PacienteStrSplits(p: Paciente)
    requires ' ' !in p.nombre
    ensures SplitAtFirst(PacienteStr(p), ' ') == (p.nombre, p.apellido)
    ensures |PacienteStr(p)| == |p.nombre| + 1 + |p.apellido|
  {
    SplitAtFirstOfJoin(p.nombre, ' ', p.apellido);
  }

  // ------------------------------------------------------------ Cita.estado

  /** `Cita.ESTADO_CHOICES`. */
  datatype EstadoCita = Pendiente | Confirmada | Cancelada | Atendida

  /** The stored code of each appointment state. */
  function EstadoCitaCode(e: EstadoCita): (r: string) {
    match e
    case Pendiente => "pendiente"
    case Confirmada => "confirmada"
    case Cancelada => "cancelada"
    case Atendida => "atendida"
  }

  /** The default of `Cita.estado`. */
  const ESTADO_CITA_DEFAULT: EstadoCita := EstadoCita.Pendiente

  /** Reads a stored code back; exactly the four codes of the choices are
      recognised. */
  function ParseEstadoCita(code: string): (r: Option<EstadoCita>)
    ensures r.Some? ==> EstadoCitaCode(r.value) == code
    ensures r.None? ==> forall e :: EstadoCitaCode(e) != code
  {
    if code == "pendiente" then Some(EstadoCita.Pendiente)
    else if code == "confirmada" then Some(Confirmada)
    else if code == "cancelada" then Some(Cancelada)
    else if code == "atendida" then Some(Atendida)
    else None
  }

  // ---------------------------------------------------- Notificacion.estado

  /** `Notificacion.ESTADO_CHOICES`. */
  datatype EstadoNotificacion = Pendiente | Enviada | Fallida | Entregada

  function EstadoNotificacionCode(e: EstadoNotificacion): (r: string) {
    match e
    case Pendiente => "pendiente"
    case Enviada => "enviada"
    case Fallida => "fallida"
    case Entregada => "entregada"
  }

  /** The default of `Notificacion.estado`. */
  const ESTADO_NOTIFICACION_DEFAULT: EstadoNotificacion := EstadoNotificacion.Pendiente

  function ParseEstadoNotificacion(code: string): (r: Option<EstadoNotificacion>)
    ensures r.Some? ==> EstadoNotificacionCode(r.value) == code
    ensures r.None? ==> forall e :: EstadoNotificacionCode(e) != code
  {
    if code == "pendiente" then Some(EstadoNotificacion.Pendiente)
    else if code == "enviada" then Some(Enviada)
    else if code == "fallida" then Some(Fallida)
    else if code == "entregada" then Some(Entregada)
    else None
  }

  /** Both defaults are the "pendiente" choice. */
  lemma DefaultsArePendiente()
    ensures ParseEstadoCita(EstadoCitaCode(ESTADO_CITA_DEFAULT)) == Some(ESTADO_CITA_DEFAULT)
    ensures EstadoCitaCode(ESTADO_CITA_DEFAULT) == "pendiente"
    ensures ParseEstadoNotificacion(EstadoNotificacionCode(ESTADO_NOTIFICACION_DEFAULT)) == Some(ESTADO_NOTIFICACION_DEFAULT)
    ensures EstadoNotificacionCode(ESTADO_NOTIFICACION_DEFAULT) == "pendiente"
  {
  }

  // ----------------------------------------------------------- dates, times

  /** A calendar date (Python's `datetime.date`). */
  datatype Date = Date(year: nat, month: nat, day: nat)

  /** A point in time at minute resolution: `strftime('%d/%m/%Y %H:%M')`
      and `.date()` are all that the model layer uses of it. */
  datatype DateTime = DateTime(date: Date, hour: nat, minute: nat)

  predicate IsLeapYear(y: int) {
    y % 4 == 0 && (y % 100 != 0 || y % 400 == 0)
  }

  function DaysInMonth(y: int, m: int): (r: int) {
    if m == 2 then (if IsLeapYear(y) then 29 else 28)
    else if m == 4 || m == 6 || m == 9 || m == 11 then 30
    else 31
  }

  function DaysInYear(y: int): (r: int) {
    if IsLeapYear(y) then 366 else 365
  }

  /** The dates Python's `datetime.date` can hold. */
  predicate ValidDate(d: Date) {
    1 <= d.year <= 9999 && 1 <= d.month <= 12 && 1 <= d.day <= DaysInMonth(d.year, d.month)
  }

  predicate ValidDateTime(t: DateTime) {
    ValidDate(t.date) && 0 <= t.hour < 24 && 0 <= t.minute < 60
  }

  /** `a < b` on dates: year, then month, then day. */
  predicate Before(a: Date, b: Date) {
    a.year < b.year
    || (a.year == b.year && (a.month < b.month || (a.month == b.month && a.day < b.day)))
  }

  /** Days in the years before `y` (from year 1). */
  function DaysBeforeYear(y: int): (n: int)
    requires y >= 1
    ensures n >= 0
  {
    if y == 1 then 0 else DaysBeforeYear(y - 1) + DaysInYear(y - 1)
  }

  /** Days in the months of year `y` before month `m`. */
  function DaysBeforeMonth(y: int, m: int): (n: int)
    requires 1 <= m <= 13
    ensures n >= 0
  {
    if m == 1 then 0 else DaysBeforeMonth(y, m - 1) + DaysInMonth(y, m - 1)
  }

  /** The proleptic Gregorian ordinal of a date, 0001-01-01 being day 1
      (Python's `date.toordinal()`): an independent reference for `Before`. */
  function DayNumber(d: Date): (n: int)
    requires ValidDate(d)
  {
    DaysBeforeYear(d.year) + DaysBeforeMonth(d.year, d.month) + d.day
  }

  /** The twelve months make up the year. */
  lemma MonthsMakeYear(y: int)
    ensures DaysBeforeMonth(y, 13) == DaysInYear(y)
  {
    assert DaysBeforeMonth(y, 2) == 31;
    assert DaysBeforeMonth(y, 3) == 31 + DaysInMonth(y, 2);
    assert DaysBeforeMonth(y, 4) == 62 + DaysInMonth(y, 2);
    assert DaysBeforeMonth(y, 5) == 92 + DaysInMonth(y, 2);
    assert DaysBeforeMonth(y, 6) == 123 + DaysInMonth(y, 2);
    assert DaysBeforeMonth(y, 7) == 153 + DaysInMonth(y, 2);
    assert DaysBeforeMonth(y, 8) == 184 + DaysInMonth(y, 2);
    assert DaysBeforeMonth(y, 9) == 215 + DaysInMonth(y, 2);
    assert DaysBeforeMonth(y, 10) == 245 + DaysInMonth(y, 2);
    assert DaysBeforeMonth(y, 11) == 276 + DaysInMonth(y, 2);
    assert DaysBeforeMonth(y, 12) == 306 + DaysInMonth(y, 2);
  }

  lemma {:induction false} DaysBeforeMonthGrows(y: int, m1: int, m2: int)
    requires 1 <= m1 < m2 <= 13
    ensures DaysBeforeMonth(y, m1) + DaysInMonth(y, m1) <= DaysBeforeMonth(y, m2)
  {
    if m1 + 1 < m2 {
      DaysBeforeMonthGrows(y, m1, m2 - 1);
    }
  }

  lemma {:induction false} DaysBeforeYearGrows(y1: int, y2: int)
    requires 1 <= y1 < y2
    ensures DaysBeforeYear(y1) + DaysInYear(y1) <= DaysBeforeYear(y2)
  {
    if y1 + 1 < y2 {
      DaysBeforeYearGrows(y1, y2 - 1);
    }
  }

  /** Comparing dates field by field is comparing their day ordinals. */
  lemma BeforeIsEarlierDay(a: Date, b: Date)
    requires ValidDate(a) && ValidDate(b)
    ensures Before(a, b) <==> DayNumber(a) < DayNumber(b)
    ensures a == b <==> DayNumber(a) == DayNumber(b)
  {
    forall x: Date, y: Date | ValidDate(x) && ValidDate(y) && Before(x, y)
      ensures DayNumber(x) < DayNumber(y)
    {
      if x.year < y.year {
        DaysBeforeMonthGrows(x.year, x.month, 13);
        MonthsMakeYear(x.year);
        DaysBeforeYearGrows(x.year, y.year);
      } else if x.month < y.month {
        DaysBeforeMonthGrows(x.year, x.month, y.month);
      }
    }
  }

  // ------------------------------------------------------ Notificacion.clean

  const PAST_DATE_ERROR: string :=
    "No se puede programar notificaciones para fechas pasadas. La cita ya no está disponible para notificar."

  /** `Notificacion.clean`, with the current date passed in: a scheduled
      date strictly before today is refused; the time of day plays no part
      and a missing date passes. */
  function Clean(fechaProgramada: Option<DateTime>, today: Date): (r: Outcome<string>)
    ensures r.Fail? ==> r.error == PAST_DATE_ERROR
  {
    if fechaProgramada.Some? && Before(fechaProgramada.value.date, today) then Fail(PAST_DATE_ERROR)
    else Pass
  }

  /** `clean` refuses exactly the notifications whose scheduled day comes
      strictly before today's; any time on today's date, or on a later day,
      is accepted, and so is a notification without a date. */
  lemma CleanRejectsPastDaysOnly(fechaProgramada: Option<DateTime>, today: Date)
    requires fechaProgramada.Some? ==> ValidDateTime(fechaProgramada.value)
    requires ValidDate(today)
    ensures Clean(fechaProgramada, today).Fail?
      <==> fechaProgramada.Some? && DayNumber(fechaProgramada.value.date) < DayNumber(today)
    ensures fechaProgramada.Some? && fechaProgramada.value.date == today ==> Clean(fechaProgramada, today) == Pass
    ensures fechaProgramada.None? ==> Clean(fechaProgramada, today) == Pass
  {
    if fechaProgramada.Some? {
      BeforeIsEarlierDay(fechaProgramada.value.date, today);
    }
  }

  /** Only the date part is compared: two times on the same day get the
      same verdict. */
  lemma CleanIgnoresTimeOfDay(t1: DateTime, t2: DateTime, today: Date)
    requires t1.date == t2.date
    ensures Clean(Some(t1), today) == Clean(Some(t2), today)
  {
  }

  // ------------------------------------------------------- Notificacion

  /** A notification. The foreign keys to the appointment, the sending number
      and the message template, the provider's response and the send time are
      not modelled. */
  datatype Notificacion = Notificacion(
    numeroDestinatario: string,
    numeroOrigen: string,
    fechaProgramada: Option<DateTime>,
    estado: EstadoNotificacion,
    mensajeError: string)

  /** A new notification as the model's field defaults build it: `estado`
      starts at the "pendiente" choice and there is no error message yet. */
  function NewNotificacion(numeroDestinatario: string, numeroOrigen: string,
                           fechaProgramada: Option<DateTime>): (n: Notificacion)
    ensures n.numeroDestinatario == numeroDestinatario && n.numeroOrigen == numeroOrigen
    ensures n.fechaProgramada == fechaProgramada
    ensures n.estado == EstadoNotificacion.Pendiente
    ensures EstadoNotificacionCode(n.estado) == "pendiente"
    ensures n.mensajeError == ""
  {
    Notificacion(numeroDestinatario, numeroOrigen, fechaProgramada, ESTADO_NOTIFICACION_DEFAULT, "")
  }

  /** `strftime('%d/%m/%Y %H:%M')`. */
  function Stamp(t: DateTime): (r: string) {
    Digits(t.date.day, 2) + "/" + Digits(t.date.month, 2) + "/" + Digits(t.date.year, 4)
      + " " + Digits(t.hour, 2) + ":" + Digits(t.minute, 2)
  }

  /** Reads the fields of a `DD/MM/YYYY HH:MM` stamp back. */
  function ParseStamp(s: string): (r: DateTime)
    requires |s| == 16
    requires forall k :: 0 <= k < 16 && k !in {2, 5, 10, 13} ==> IsDigit(s[k])
  {
    DateTime(Date(ParseDigits(s[6..10]), ParseDigits(s[3..5]), ParseDigits(s[0..2])),
             ParseDigits(s[11..13]), ParseDigits(s[14..16]))
  }

  /** The stamp is sixteen characters with the separators in fixed places,
      and it is read back as the date and time it renders. */
  lemma StampRoundTrip(t: DateTime)
    requires ValidDateTime(t)
    ensures var s := Stamp(t);
      && |s| == 16 && s[2] == '/' && s[5] == '/' && s[10] == ' ' && s[13] == ':'
      && (forall k :: 0 <= k < 16 && k !in {2, 5, 10, 13} ==> IsDigit(s[k]))
      && ParseStamp(s) == t
  {
    var s := Stamp(t);
    assert Pow10(2) == 100 && Pow10(4) == 10000;
    assert s[0..2] == Digits(t.date.day, 2);
    assert s[3..5] == Digits(t.date.month, 2);
    assert s[6..10] == Digits(t.date.year, 4);
    assert s[11..13] == Digits(t.hour, 2);
    assert s[14..16] == Digits(t.minute, 2);
    ParseDigitsOfDigits(t.date.day, 2);
    ParseDigitsOfDigits(t.date.month, 2);
    ParseDigitsOfDigits(t.date.year, 4);
    ParseDigitsOfDigits(t.hour, 2);
    ParseDigitsOfDigits(t.minute, 2);
  }

  const NOTIFICACION_PREFIX: string := "Notificación para "

  /** `Notificacion.__str__`; it raises when there is no scheduled date, which
      is `None` here. */
  function NotificacionStr(n: Notificacion): (r: Option<string>)
    ensures r.Some? <==> n.fechaProgramada.Some?
  {
    match n.fechaProgramada
    case None => None
    case Some(t) => Some(NOTIFICACION_PREFIX + n.numeroDestinatario + " - " + Stamp(t))
  }

  /** The rendering is the prefix and the recipient number, " - ", and a
      stamp that reads back as the scheduled date and time. */
  lemma NotificacionStrShowsSchedule(n: Notificacion)
    requires n.fechaProgramada.Some? && ValidDateTime(n.fechaProgramada.value)
    ensures var s := NotificacionStr(n).value;
      && |s| == |NOTIFICACION_PREFIX| + |n.numeroDestinatario| + 3 + 16
      && s[..|NOTIFICACION_PREFIX| + |n.numeroDestinatario|] == NOTIFICACION_PREFIX + n.numeroDestinatario
      && var k := |NOTIFICACION_PREFIX| + |n.numeroDestinatario|;
      && s[k..k + 3] == " - " && s[k + 3..] == Stamp(n.fechaProgramada.value)
      && ParseStamp(s[|s| - 16..]) == n.fechaProgramada.value
  {
    var t := n.fechaProgramada.value;
    StampRoundTrip(t);
    var s := NotificacionStr(n).value;
    assert s[|s| - 16..] == Stamp(t);
  }

  // ------------------------------------------------- NumeroNotificacion

  /** A sending number; the area it belongs to is not modelled. */
  datatype NumeroNotificacion = NumeroNotificacion(numero: string, descripcion: string, activo: bool)

  /** `NumeroNotificacion.__str__`: the number, then " - " and the
      description when there is one. */
  function NumeroNotificacionStr(n: NumeroNotificacion): (r: string)
    ensures |r| >= |n.numero| && r[..|n.numero|] == n.numero
    ensures r == n.numero <==> n.descripcion == ""
    ensures n.descripcion != "" ==> r[|n.numero|..] == " - " + n.descripcion
  {
    var desc := if n.descripcion != "" then " - " + n.descripcion else "";
    n.numero + desc
  }

  /** Two records with the same number render alike only when their
      descriptions are equal. */
  lemma NumeroNotificacionStrInjective(a: NumeroNotificacion, b: NumeroNotificacion)
    requires a.numero == b.numero
    requires NumeroNotificacionStr(a) == NumeroNotificacionStr(b)
    ensures a.descripcion == b.descripcion
  {
    var s := NumeroNotificacionStr(a);
    var k := |a.numero|;
    if a.descripcion != "" && b.descripcion != "" {
      assert a.descripcion == s[k + 3..];
      assert b.descripcion == s[k + 3..];
    }
  }

  // ------------------------------------------------- Notificacion.save

  /** Whether a notification's scheduled day is not before `day`. */
  predicate NotPastOn(n: Notificacion, day: Date) {
    n.fechaProgramada.None? || !Before(n.fechaProgramada.value.date, day)
  }

  /** The notification table. `Save` is `Notificacion.save`: it runs `clean`
      and only then writes. Primary keys follow the highest key used so far,
      and the storage layer may refuse a write with an opaque message. */
  class NotificationStore {
    var rows: map<nat, Notificacion>
    var nextId: nat
    /** The day on which each stored row was last saved. */
    ghost var savedOn: map<nat, Date>

    /** Every key is below the next one to hand out, and no stored row was
        scheduled for a day before the day it was saved. */
    ghost predicate Valid()
      reads this
    {
      && rows.Keys == savedOn.Keys
      && (forall k :: k in rows ==> k < nextId)
      && (forall k :: k in rows ==> NotPastOn(rows[k], savedOn[k]))
    }

    constructor ()
      ensures Valid() && rows == map[] && nextId == 1
    {
      rows := map[];
      nextId := 1;
      savedOn := map[];
    }

    /** Saves `n` under primary key `id`, or under a new key when `id` is
        `None`; returns the key used, or the error raised. */
    method Save(id: Option<nat>, n: Notificacion, today: Date, fault: Option<string>) returns (r: Result<nat, string>)
      requires Valid()
      modifies this
      ensures Valid()
      ensures Clean(n.fechaProgramada, today).Fail? ==>
        r == Err(PAST_DATE_ERROR) && rows == old(rows) && nextId == old(nextId) && savedOn == old(savedOn)
      ensures Clean(n.fechaProgramada, today).Pass? && fault.Some? ==>
        r == Err(fault.value) && rows == old(rows) && nextId == old(nextId) && savedOn == old(savedOn)
      ensures Clean(n.fechaProgramada, today).Pass? && fault.None? ==>
        && r.Ok?
        && r.value == (if id.Some? then id.value else old(nextId))
        && rows == old(rows)[r.value := n]
        && savedOn == old(savedOn)[r.value := today]
        && nextId == (if r.value < old(nextId) then old(nextId) else r.value + 1)
      ensures r.Ok? ==> NotPastOn(n, today)
    {
      var check := Clean(n.fechaProgramada, today);
      if check.Fail? {
        return Err(check.error);
      }
      if fault.Some? {
        return Err(fault.value);
      }
      var key := if id.Some? then id.value else nextId;
      rows := rows[key := n];
      savedOn := savedOn[key := today];
      if key >= nextId {
        nextId := key + 1;
      }
      r := Ok(key);
    }
  }
}
