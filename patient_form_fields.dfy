/** What the two patient forms of the frontend share: the date text of a
    date input, the age and birth-date fields kept in step with each other,
    the form's change handler, the body sent to the backend, and the
    back-dating update sent when the user picks an existing patient
    registered later than the date on the form. */
module PatientFormFields {
  import opened Common
  import opened Dates
  import opened JsNumbers
  import opened Entities
  import opened PatientExtensions
  import opened PatientsController

  // ------------------------------------------------------------ date text

  function DigitChar(d: nat): (c: char)
    requires d < 10
    ensures IsDigit(c) && DigitValue(c) == d
  {
    ('0' as int + d) as char
  }

  /** The decimal text of a natural number, without leading zeros. */
  function NatText(n: nat): (r: string)
    ensures r != [] && AllDigits(r)
    decreases n
  {
    if n < 10 then [DigitChar(n)] else NatText(n / 10) + [DigitChar(n % 10)]
  }

  lemma {:induction false} NatTextValue(n: nat)
    ensures NatValue(NatText(n)) == n
  {
    if n >= 10 {
      NatTextValue(n / 10);
      var s := NatText(n);
      assert s[..|s| - 1] == NatText(n / 10);
    }
  }

  /** A number of k + 1 digits is written with k + 1 characters. */
  lemma {:induction false} NatTextLength(n: nat, k: nat)
    requires Pow10(k) <= n < Pow10(k + 1)
    ensures |NatText(n)| == k + 1
  {
    if k > 0 {
      assert Pow10(k) == 10 * Pow10(k - 1) && Pow10(k + 1) == 10 * Pow10(k);
      assert n == 10 * (n / 10) + n % 10;
      NatTextLength(n / 10, k - 1);
    }
  }

  /** String(n).padStart(2, '0') for n below 100. */
  function Pad2(n: nat): (r: string)
    requires n < 100
    ensures |r| == 2 && AllDigits(r)
  {
    if n < 10 then "0" + NatText(n)
    else
      assert NatText(n) == NatText(n / 10) + [DigitChar(n % 10)];
      NatText(n)
  }

  lemma Pad2Value(n: nat)
    requires n < 100
    ensures NatValue(Pad2(n)) == n
  {
    var s := Pad2(n);
    if n < 10 {
      assert s[..1] == "0" && s[1] == DigitChar(n);
      assert NatValue("0") == 0;
    } else {
      NatTextLength(n, 1);
      NatTextValue(n);
    }
  }

  /** A year in a template string: a minus sign before a negative one. */
  function YearText(y: int): string
  {
    if y < 0 then "-" + NatText(-y) else NatText(y)
  }

  /** `${year}-${month}-${day}` with month and day padded to two digits. */
  function IsoDateText(d: Date): string
    requires 1 <= d.month <= 12 && 1 <= d.day <= 31
  {
    YearText(d.year) + "-" + Pad2(d.month) + "-" + Pad2(d.day)
  }

  /** A date-only text "YYYY-MM-DD" read as a calendar date; anything else,
      or a day the month does not have, is an invalid date. */
  function ParseIsoDate(s: string): (r: Option<Date>)
    ensures r.Some? ==> ValidDate(r.value)
    ensures r.Some? ==> |s| == 10 && s[4] == '-' && s[7] == '-'
  {
    if |s| == 10 && s[4] == '-' && s[7] == '-'
       && AllDigits(s[..4]) && AllDigits(s[5..7]) && AllDigits(s[8..])
    then
      var d := Date(NatValue(s[..4]), NatValue(s[5..7]), NatValue(s[8..]));
      if ValidDate(d) then Some(d) else None
    else None
  }

  /** Writing a date with a four-digit year and reading it back gives the
      same date. */
  lemma IsoRoundTrip(d: Date)
    requires ValidDate(d) && 1000 <= d.year <= 9999
    ensures ParseIsoDate(IsoDateText(d)) == Some(d)
  {
    var y, m, dd := NatText(d.year), Pad2(d.month), Pad2(d.day);
    NatTextLength(d.year, 3);
    NatTextValue(d.year);
    Pad2Value(d.month);
    Pad2Value(d.day);
    var s := IsoDateText(d);
    assert s == y + "-" + m + "-" + dd;
    assert s[..4] == y && s[5..7] == m && s[8..] == dd;
  }

  // --------------------------------------------------------- age and date

  /** The age field: the text typed in it, or the number (or NaN) computed
      from the birth date. */
  datatype Edad = Typed(text: string) | Years(n: int) | NotANumber

  /** calculateAgeFromDate: an empty birth date gives an empty age; an
      unreadable one gives NaN; otherwise the year difference, one less
      when today's month and day come before the birthday's. */
  function AgeFromDate(dateString: string, today: Date): (r: Edad)
    ensures r == Typed("") <==> dateString == ""
  {
    if dateString == "" then Typed("")
    else
      match ParseIsoDate(dateString)
      case None => NotANumber
      case Some(b) => Years(today.year - b.year - (if MonthDayLess(today, b) then 1 else 0))
  }

  /** calculateDateFromAge: an empty age gives an empty date; otherwise
      today's month and day in the year parseInt(age) years back (the year
      reads "NaN" when the age is not a number). */
  function DateFromAge(age: string, today: Date): (r: string)
    requires 1 <= today.month <= 12 && 1 <= today.day <= 31
    ensures r == "" <==> age == ""
  {
    if age == "" then ""
    else
      match ParseInt(age)
      case None => "NaN-" + Pad2(today.month) + "-" + Pad2(today.day)
      case Some(a) => IsoDateText(Date(today.year - a, today.month, today.day))
  }

  /** The age the form shows for a birth date is the one the backend
      computes for it. */
  lemma FrontendAgeMatchesBackend(dateString: string, today: Date)
    requires ValidDate(today) && ParseIsoDate(dateString).Some?
    ensures AgeFromDate(dateString, today) == Years(CalculateAge(ParseIsoDate(dateString), today).value)
  {
    AgeMonthDayRule(ParseIsoDate(dateString).value, today);
  }

  /** Typing an age fills a birth date from which the same age is computed
      back, when that date exists and has a four-digit year. */
  lemma AgeDateRoundTrip(age: string, today: Date)
    requires ValidDate(today) && ParseInt(age).Some?
    requires var y := today.year - ParseInt(age).value;
             1000 <= y <= 9999 && ValidDate(Date(y, today.month, today.day))
    ensures AgeFromDate(DateFromAge(age, today), today) == Years(ParseInt(age).value)
  {
    EmptyText();
    var b := Date(today.year - ParseInt(age).value, today.month, today.day);
    IsoRoundTrip(b);
  }

  // ------------------------------------------------------------ the form

  datatype FormData = FormData(
    nombre: string,
    apellidoPaterno: string,
    apellidoMaterno: string,
    telefono: string,
    email: string,
    direccion: string,
    fechaNacimiento: string,
    edad: Edad,
    ocupacion: string,
    notas: string,
    fechaRegistro: string,
    estaActivo: bool)

  /** The blank form, registered on the date given. */
  function EmptyForm(fechaRegistro: string): (r: FormData)
    ensures r.fechaNacimiento == "" && r.edad == Typed("") && r.estaActivo
    ensures r.fechaRegistro == fechaRegistro
  {
    FormData("", "", "", "", "", "", "", Typed(""), "", "", fechaRegistro, true)
  }

  /** The inputs that hold plain text. */
  datatype TextField = Nombre | ApellidoPaterno | ApellidoMaterno | Telefono | Email
                     | Direccion | Ocupacion | Notas | FechaRegistro

  function TextOf(f: FormData, field: TextField): string
  {
    match field
    case Nombre => f.nombre
    case ApellidoPaterno => f.apellidoPaterno
    case ApellidoMaterno => f.apellidoMaterno
    case Telefono => f.telefono
    case Email => f.email
    case Direccion => f.direccion
    case Ocupacion => f.ocupacion
    case Notas => f.notas
    case FechaRegistro => f.fechaRegistro
  }

  function WithText(f: FormData, field: TextField, v: string): FormData
  {
    match field
    case Nombre => f.(nombre := v)
    case ApellidoPaterno => f.(apellidoPaterno := v)
    case ApellidoMaterno => f.(apellidoMaterno := v)
    case Telefono => f.(telefono := v)
    case Email => f.(email := v)
    case Direccion => f.(direccion := v)
    case Ocupacion => f.(ocupacion := v)
    case Notas => f.(notas := v)
    case FechaRegistro => f.(fechaRegistro := v)
  }

  /** One change event: a text input, the birth date, the age, or the
      active checkbox. */
  datatype Change = SetText(field: TextField, value: string) | SetBirthDate(date: string)
                  | SetAge(age: string) | SetActive(checked: bool)

  /** handleChange: the changed input takes its value; a new birth date
      recomputes the age, and a new age refills the birth date. */
  function Changed(f: FormData, c: Change, today: Date): (r: FormData)
    requires ValidDate(today)
    ensures c.SetBirthDate? ==> r.fechaNacimiento == c.date && r.edad == AgeFromDate(c.date, today)
    ensures c.SetAge? ==> r.edad == Typed(c.age) && r.fechaNacimiento == DateFromAge(c.age, today)
    ensures c.SetText? ==> TextOf(r, c.field) == c.value
    ensures c.SetActive? ==> r.estaActivo == c.checked
  {
    match c
    case SetText(field, v) => WithText(f, field, v)
    case SetBirthDate(v) => f.(fechaNacimiento := v, edad := AgeFromDate(v, today))
    case SetAge(v) => f.(edad := Typed(v), fechaNacimiento := DateFromAge(v, today))
    case SetActive(b) => f.(estaActivo := b)
  }

  /** A change touches its own input, plus the age or the birth date tied
      to it, and nothing else. */
  lemma ChangedTouchesOnlyItsInput(f: FormData, c: Change, today: Date, other: TextField)
    requires ValidDate(today)
    requires c.SetText? ==> other != c.field
    ensures TextOf(Changed(f, c, today), other) == TextOf(f, other)
    ensures !c.SetActive? ==> Changed(f, c, today).estaActivo == f.estaActivo
    ensures c.SetText? || c.SetActive? ==> Changed(f, c, today).fechaNacimiento == f.fechaNacimiento
                                           && Changed(f, c, today).edad == f.edad
  {
    match c
    case SetText(field, v) => {
      match field {
        case Nombre =>
        case ApellidoPaterno =>
        case ApellidoMaterno =>
        case Telefono =>
        case Email =>
        case Direccion =>
        case Ocupacion =>
        case Notas =>
        case FechaRegistro =>
      }
    }
    case SetBirthDate(v) =>
    case SetAge(v) =>
    case SetActive(b) =>
  }

  /** After an age is typed, the birth date filled in gives that same age
      back (for a date that exists with a four-digit year). */
  lemma AgeThenDateAgree(f: FormData, age: string, today: Date)
    requires ValidDate(today) && ParseInt(age).Some?
    requires var y := today.year - ParseInt(age).value;
             1000 <= y <= 9999 && ValidDate(Date(y, today.month, today.day))
    ensures var g := Changed(f, SetAge(age), today);
            AgeFromDate(g.fechaNacimiento, today) == Years(ParseInt(age).value)
  {
    AgeDateRoundTrip(age, today);
  }

  // --------------------------------------------------------- the request

  /** The JSON body of the create and duplicate-check requests: the form
      without the age, and a null birth date when none was given. */
  datatype PatientPayload = PatientPayload(
    nombre: string,
    apellidoPaterno: string,
    apellidoMaterno: string,
    telefono: string,
    email: string,
    direccion: string,
    fechaNacimiento: Option<string>,
    ocupacion: string,
    notas: string,
    fechaRegistro: string,
    estaActivo: bool)

  function PayloadOf(f: FormData): (r: PatientPayload)
    ensures r.fechaNacimiento.None? <==> f.fechaNacimiento == ""
    ensures r.fechaNacimiento.Some? ==> r.fechaNacimiento.value == f.fechaNacimiento
    ensures r.telefono == f.telefono && r.email == f.email && r.direccion == f.direccion
  {
    PatientPayload(f.nombre, f.apellidoPaterno, f.apellidoMaterno, f.telefono, f.email, f.direccion,
                   if f.fechaNacimiento == "" then None else Some(f.fechaNacimiento),
                   f.ocupacion, f.notas, f.fechaRegistro, f.estaActivo)
  }

  /** The age is never sent. */
  lemma PayloadIgnoresAge(f: FormData, e: Edad)
    ensures PayloadOf(f.(edad := e)) == PayloadOf(f)
  {
  }

  /** The body as the backend binds it: every text arrives as a string,
      empty ones included; a date-only text arrives as that date (the
      registration date at midnight, of unspecified kind); a date text the
      binder cannot read fails the request. */
  function BindPayload(p: PatientPayload): (r: Option<CreatePatientDto>)
    ensures r.Some? <==> (p.fechaNacimiento.None? || ParseIsoDate(p.fechaNacimiento.value).Some?)
                         && ParseIsoDate(p.fechaRegistro).Some?
    ensures r.Some? ==> r.value.telefono == Some(p.telefono) && r.value.email == Some(p.email)
                        && r.value.direccion == Some(p.direccion)
    ensures r.Some? ==> r.value.fechaRegistro == Some(AtMidnight(ParseIsoDate(p.fechaRegistro).value))
    ensures r.Some? ==> (r.value.fechaNacimiento.None? <==> p.fechaNacimiento.None?)
  {
    var birth := if p.fechaNacimiento.None? then Some(None)
                 else match ParseIsoDate(p.fechaNacimiento.value)
                      case None => None
                      case Some(d) => Some(Some(d));
    match (birth, ParseIsoDate(p.fechaRegistro))
    case (Some(b), Some(reg)) =>
      Some(CreatePatientDto(p.nombre, Some(p.apellidoPaterno), Some(p.apellidoMaterno), b,
                            Some(p.telefono), Some(p.email), Some(p.direccion), Some(p.ocupacion),
                            Some(p.notas), Some(AtMidnight(reg))))
    case _ => None
  }

  /** A birth date picked in the form reaches the backend as that date, and
      an empty one as no date; the registration date likewise. */
  lemma SubmittedDates(f: FormData, birth: Option<Date>, registered: Date)
    requires birth.Some? ==> ValidDate(birth.value) && 1000 <= birth.value.year <= 9999
    requires ValidDate(registered) && 1000 <= registered.year <= 9999
    requires f.fechaNacimiento == (if birth.Some? then IsoDateText(birth.value) else "")
    requires f.fechaRegistro == IsoDateText(registered)
    ensures BindPayload(PayloadOf(f)).Some?
    ensures BindPayload(PayloadOf(f)).value.fechaNacimiento == birth
    ensures BindPayload(PayloadOf(f)).value.fechaRegistro == Some(AtMidnight(registered))
  {
    IsoRoundTrip(registered);
    if birth.Some? {
      IsoRoundTrip(birth.value);
      assert f.fechaNacimiento != "" by {
        assert |IsoDateText(birth.value)| == 10;
      }
    }
  }

  // ----------------------------------------------------------- back-dating

  /** The form's registration date is read and comes strictly before the
      existing patient's registration; only then is the update sent. */
  predicate BackDates(fechaRegistro: string, existing: PatientDto)
  {
    fechaRegistro != "" && ParseIsoDate(fechaRegistro).Some?
    && DateTimeLess(AtMidnight(ParseIsoDate(fechaRegistro).value), existing.fechaRegistro)
  }

  /** The update sent to move an existing patient's registration back to d:
      every field copied from the patient as the list showed it, the new
      registration date from the form. */
  function BackDateUpdate(existing: PatientDto, d: Date): (r: UpdatePatientDto)
    ensures r.fields.fechaRegistro == Some(AtMidnight(d))
    ensures r.fields.fechaNacimiento == existing.fechaNacimiento
    ensures r.estaActivo == existing.estaActivo && r.fields.nombre == existing.nombre
  {
    UpdatePatientDto(CreatePatientDto(existing.nombre, existing.apellidoPaterno, existing.apellidoMaterno,
                                      existing.fechaNacimiento, existing.telefono, existing.email,
                                      existing.direccion, existing.ocupacion, existing.notas,
                                      Some(AtMidnight(d))),
                     existing.estaActivo)
  }

  /** The update always moves the registration to an earlier instant. */
  lemma BackDateMovesEarlier(p: Patient, existing: PatientDto, fechaRegistro: string)
    requires existing.fechaRegistro == p.fechaRegistro && BackDates(fechaRegistro, existing)
    ensures DateTimeLess(ApplyUpdate(p, BackDateUpdate(existing, ParseIsoDate(fechaRegistro).value)).fechaRegistro,
                         p.fechaRegistro)
  {
  }

  /** As written: the duplicates the form offers come from the
      duplicate check, whose DTOs carry no birth date, so back-dating any of
      them erases the stored birth date. */
  lemma BackDateErasesBirthDate(pacientes: seq<Patient>, model: CreatePatientDto, today: Date,
                                i: nat, p: Patient, d: Date)
    requires CheckDuplicates(pacientes, model, today).Ok?
    requires i < |CheckDuplicates(pacientes, model, today).value|
    requires CheckDuplicates(pacientes, model, today).value[i].id == p.id
    ensures ApplyUpdate(p, BackDateUpdate(CheckDuplicates(pacientes, model, today).value[i], d)).fechaNacimiento.None?
  {
  }

  /** The concrete case: a patient born on 10 May 1990, back-dated through
      the duplicate list, is left without a birth date. */
  lemma BackDateErasesExample()
    ensures var p := Patient(1, "Ana", Some("Lopez"), None, Some(Date(1990, 5, 10)), None, None, None,
                             None, None, true, DateTime(Date(2024, 3, 1), 0, Utc), None);
            var today := Date(2024, 6, 1);
            var p2 := ApplyUpdate(p, BackDateUpdate(ListDto(p, today), Date(2020, 1, 15)));
            p.fechaNacimiento.Some? && p2.fechaNacimiento.None?
  {
  }

  /** The duplicate check with each match described by the full DTO, the
      birth date included. */
  function CheckDuplicatesWithBirthDate(pacientes: seq<Patient>, model: CreatePatientDto, today: Date)
    : (r: Result<seq<PatientDto>>)
    ensures r.Ok? <==> CheckDuplicates(pacientes, model, today).Ok?
    ensures r.Fail? ==> r == CheckDuplicates(pacientes, model, today)
    ensures r.Ok? ==> |r.value| == |CheckDuplicates(pacientes, model, today).value|
    ensures r.Ok? ==> forall i :: 0 <= i < |r.value| ==>
                        r.value[i] == CheckDuplicates(pacientes, model, today).value[i].(
                          fechaNacimiento := r.value[i].fechaNacimiento)
  {
    if !NombreValid(model.nombre) then Fail(BadRequest)
    else
      var rows := CheckRows(pacientes, CheckProbeOf(model));
      Ok(Map(rows, (p: Patient) => ToDto(p, today)))
  }

  /** Corrected: back-dating a patient described with its birth date
      changes its registration date and nothing else. */
  lemma BackDateKeepsPatient(pacientes: seq<Patient>, model: CreatePatientDto, today: Date,
                             i: nat, p: Patient, d: Date)
    requires CheckDuplicatesWithBirthDate(pacientes, model, today).Ok?
    requires i < |CheckDuplicatesWithBirthDate(pacientes, model, today).value|
    requires p == CheckRows(pacientes, CheckProbeOf(model))[i]
    ensures ApplyUpdate(p, BackDateUpdate(CheckDuplicatesWithBirthDate(pacientes, model, today).value[i], d))
            == p.(fechaRegistro := SpecifyUtcIfUnspecified(AtMidnight(d)))
  {
  }
}
