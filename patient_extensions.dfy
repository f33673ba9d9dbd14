/** PatientExtensions: the age computed from a birth date, and the
    patient-to-DTO projection. "Today" is a parameter. */
module PatientExtensions {
  import opened Common
  import opened Dates
  import opened Entities

  /** CalculateAge: the year difference, minus one when the birth date is
      after today's date moved back by that many years. */
  function CalculateAge(dob: Option<Date>, today: Date): (r: Option<int>)
    ensures dob.None? <==> r.None?
  {
    if dob.None? then None
    else
      var age := today.year - dob.value.year;
      if DateLess(AddYears(today, -age), dob.value) then Some(age - 1) else Some(age)
  }

  /** The k-th birthday of someone born on dob, as a (year, month, day)
      triple that is compared without clamping 29 February. */
  function Anniversary(dob: Date, k: int): (r: Date)
    ensures r.year == dob.year + k && r.month == dob.month && r.day == dob.day
  {
    Date(dob.year + k, dob.month, dob.day)
  }

  /** For real dates, the leap-day clamp in AddYears never changes the
      outcome: the age is the year difference, minus one exactly when
      today's month and day come before the birth month and day. */
  lemma AgeMonthDayRule(dob: Date, today: Date)
    requires ValidDate(dob) && ValidDate(today)
    ensures CalculateAge(Some(dob), today)
            == Some(today.year - dob.year - (if MonthDayLess(today, dob) then 1 else 0))
  {
    var age := today.year - dob.year;
    var back := AddYears(today, -age);
    assert back.year == dob.year;
    if back.day != today.day {
      // today is 29 February and dob.year is a common year, so dob is not 29 February
      assert today.month == 2 && today.day == 29 && !IsLeapYear(dob.year);
      assert !(dob.month == 2 && dob.day == 29);
    }
  }

  /** For someone already born, the age a is non-negative and today lies
      between the a-th birthday (inclusive) and the next (exclusive). */
  lemma AgeBetweenBirthdays(dob: Date, today: Date)
    requires ValidDate(dob) && ValidDate(today)
    requires !DateLess(today, dob)
    ensures CalculateAge(Some(dob), today).Some?
    ensures var a := CalculateAge(Some(dob), today).value;
            && a >= 0
            && !DateLess(today, Anniversary(dob, a))
            && DateLess(today, Anniversary(dob, a + 1))
  {
    AgeMonthDayRule(dob, today);
  }

  /** The age computed for the same birth date never decreases as today
      moves forward. */
  lemma AgeMonotone(dob: Date, d1: Date, d2: Date)
    requires ValidDate(dob) && ValidDate(d1) && ValidDate(d2)
    requires DateLess(d1, d2)
    ensures CalculateAge(Some(dob), d1).value <= CalculateAge(Some(dob), d2).value
  {
    AgeMonthDayRule(dob, d1);
    AgeMonthDayRule(dob, d2);
  }

  /** With AddYears' clamp, a 29 February birthday is reached on
      28 February of a common year, yet the age computed that day is one
      year short: the bound "dob.AddYears(a) <= today < dob.AddYears(a + 1)"
      does not hold for this pair, while the unclamped one above does. */
  lemma LeapDayBirthdayOnCommonYear()
    ensures var dob, today := Date(2000, 2, 29), Date(2001, 2, 28);
            && CalculateAge(Some(dob), today) == Some(0)
            && AddYears(dob, 1) == today
  {
  }

  /** ToDto: every column the DTO has is copied, Edad is computed from the
      birth date and Metadata is dropped. */
  function ToDto(p: Patient, today: Date): (r: PatientDto)
    ensures r.edad == CalculateAge(p.fechaNacimiento, today)
    ensures r.fechaNacimiento == p.fechaNacimiento
  {
    PatientDto(p.id, p.nombre, p.apellidoPaterno, p.apellidoMaterno, p.telefono, p.email,
               p.direccion, p.fechaNacimiento, CalculateAge(p.fechaNacimiento, today),
               p.ocupacion, p.notas, p.fechaRegistro, p.estaActivo)
  }

  /** The stored patient a DTO describes, with no metadata. */
  function PatientOfDto(d: PatientDto): Patient
  {
    Patient(d.id, d.nombre, d.apellidoPaterno, d.apellidoMaterno, d.fechaNacimiento, d.telefono,
            d.email, d.direccion, d.ocupacion, d.notas, d.estaActivo, d.fechaRegistro, None)
  }

  /** ToDto loses nothing but Metadata: the patient is recovered from it. */
  lemma ToDtoLosesOnlyMetadata(p: Patient, today: Date)
    ensures PatientOfDto(ToDto(p, today)) == p.(metadata := None)
  {
  }
}
