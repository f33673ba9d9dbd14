/** PatientDuplicationService.FindDuplicatesAsync: the patients that look
    like the one being registered, by full name or by phone, newest first,
    at most ten. */
module PatientDuplicationService {
  import opened Common
  import opened Dates
  import opened Entities

  const MaxDuplicates: int := 10

  /** The input normalised once: trimmed, and lowercased except the phone. */
  datatype Probe = Probe(
    name: string,
    paterno: Option<string>,
    materno: Option<string>,
    phone: Option<string>)

  function Normalize(nombre: string, apellidoPaterno: Option<string>, apellidoMaterno: Option<string>,
                     telefono: Option<string>): (r: Probe)
    ensures r.name == Lower(Trim(nombre))
    ensures r.paterno.Some? <==> apellidoPaterno.Some?
    ensures r.paterno.Some? ==> r.paterno.value == Lower(Trim(apellidoPaterno.value))
    ensures r.materno.Some? <==> apellidoMaterno.Some?
    ensures r.materno.Some? ==> r.materno.value == Lower(Trim(apellidoMaterno.value))
    ensures r.phone.Some? <==> telefono.Some?
    ensures r.phone.Some? ==> r.phone.value == Trim(telefono.value)
  {
    Probe(Lower(Trim(nombre)),
          if apellidoPaterno.Some? then Some(Lower(Trim(apellidoPaterno.value))) else None,
          if apellidoMaterno.Some? then Some(Lower(Trim(apellidoMaterno.value))) else None,
          if telefono.Some? then Some(Trim(telefono.value)) else None)
  }

  /** Case 1: same name, same non-null paternal surname, and maternal
      surnames both null or equal (stored values are lowercased, not
      trimmed). */
  predicate NameRule(p: Patient, q: Probe)
  {
    && Lower(p.nombre) == q.name
    && p.apellidoPaterno.Some? && q.paterno.Some? && Lower(p.apellidoPaterno.value) == q.paterno.value
    && ((p.apellidoMaterno.None? && q.materno.None?)
        || (p.apellidoMaterno.Some? && q.materno.Some? && Lower(p.apellidoMaterno.value) == q.materno.value))
  }

  /** Case 2: the trimmed phone is longer than five characters and equals
      the stored phone exactly. */
  predicate PhoneRule(p: Patient, q: Probe)
  {
    q.phone.Some? && |q.phone.value| > 5 && p.telefono == q.phone
  }

  predicate IsDuplicate(p: Patient, q: Probe)
  {
    NameRule(p, q) || PhoneRule(p, q)
  }

  /** The query before ordering: the exclusion, then the two rules. */
  function Candidates(pacientes: seq<Patient>, q: Probe, excludeId: Option<Guid>): seq<Patient>
  {
    var query := if excludeId.Some? then Filter(pacientes, (p: Patient) => p.id != excludeId.value) else pacientes;
    Filter(query, (p: Patient) => IsDuplicate(p, q))
  }

  lemma CandidatesSound(pacientes: seq<Patient>, q: Probe, excludeId: Option<Guid>)
    ensures forall x :: x in Candidates(pacientes, q, excludeId) ==>
              x in pacientes && IsDuplicate(x, q) && (excludeId.Some? ==> x.id != excludeId.value)
  {
  }

  function FindDuplicates(pacientes: seq<Patient>, nombre: string, apellidoPaterno: Option<string>,
                          apellidoMaterno: Option<string>, telefono: Option<string>,
                          excludeId: Option<Guid>): (r: seq<Patient>)
    ensures |r| <= MaxDuplicates
    ensures forall i :: 0 <= i < |r| ==> r[i] in pacientes
    ensures forall i :: 0 <= i < |r| ==> IsDuplicate(r[i], Normalize(nombre, apellidoPaterno, apellidoMaterno, telefono))
    ensures excludeId.Some? ==> forall i :: 0 <= i < |r| ==> r[i].id != excludeId.value
    ensures multiset(r) <= multiset(Candidates(pacientes, Normalize(nombre, apellidoPaterno, apellidoMaterno,
                                                                    telefono), excludeId))
  {
    var q := Normalize(nombre, apellidoPaterno, apellidoMaterno, telefono);
    var c := Candidates(pacientes, q, excludeId);
    CandidatesSound(pacientes, q, excludeId);
    TakeSortedMembers(c, NewerOrSame, MaxDuplicates);
    TakeSubMultiset(SortBy(c, NewerOrSame), MaxDuplicates);
    Take(SortBy(c, NewerOrSame), MaxDuplicates)
  }

  /** The result is the ten newest matches, newest first: sorted by
      registration date descending, drawn from the matches, as many as
      there are up to ten, and no match left out is newer than one kept. */
  lemma {:induction false} FindDuplicatesOrderAndCompleteness(pacientes: seq<Patient>, nombre: string,
      apellidoPaterno: Option<string>, apellidoMaterno: Option<string>, telefono: Option<string>,
      excludeId: Option<Guid>)
    ensures var r := FindDuplicates(pacientes, nombre, apellidoPaterno, apellidoMaterno, telefono, excludeId);
            var c := Candidates(pacientes, Normalize(nombre, apellidoPaterno, apellidoMaterno, telefono), excludeId);
            && SortedBy(NewerOrSame, r)
            && multiset(r) <= multiset(c)
            && |r| == (if |c| <= MaxDuplicates then |c| else MaxDuplicates)
            && (|c| <= MaxDuplicates ==> multiset(r) == multiset(c))
            && (forall x, y | x in r && y in multiset(c) - multiset(r) :: NewerOrSame(x, y))
  {
    var q := Normalize(nombre, apellidoPaterno, apellidoMaterno, telefono);
    var c := Candidates(pacientes, q, excludeId);
    NewerOrSameIsPreorder(c);
    SortSorted(c, NewerOrSame);
    TakeSorted(NewerOrSame, SortBy(c, NewerOrSame), MaxDuplicates);
    TakeSortedTop(c, NewerOrSame, MaxDuplicates);
  }

  /** Without a paternal surname only the phone rule can match. */
  lemma NoPaternoOnlyPhone(p: Patient, nombre: string, apellidoMaterno: Option<string>, telefono: Option<string>)
    ensures IsDuplicate(p, Normalize(nombre, None, apellidoMaterno, telefono))
            <==> PhoneRule(p, Normalize(nombre, None, apellidoMaterno, telefono))
  {
  }

  /** A null phone, or one of at most five characters once trimmed, never
      matches by phone. */
  lemma ShortPhoneNeverMatches(p: Patient, nombre: string, apellidoPaterno: Option<string>,
                               apellidoMaterno: Option<string>, telefono: Option<string>)
    requires telefono.None? || |Trim(telefono.value)| <= 5
    ensures !PhoneRule(p, Normalize(nombre, apellidoPaterno, apellidoMaterno, telefono))
  {
  }

  /** The name rule ignores case on both sides and surrounding blanks on
      the input side: a stored patient always matches its own name typed
      in any case with extra blanks, when its surname is stored. */
  lemma {:induction false} OwnNameMatches(p: Patient, pad: string)
    requires p.apellidoPaterno.Some?
    requires forall i :: 0 <= i < |pad| ==> IsWhiteSpace(pad[i])
    requires Trim(p.nombre) == p.nombre
    requires Trim(p.apellidoPaterno.value) == p.apellidoPaterno.value
    requires p.apellidoMaterno.Some? ==> Trim(p.apellidoMaterno.value) == p.apellidoMaterno.value
    ensures NameRule(p, Normalize(pad + p.nombre, p.apellidoPaterno, p.apellidoMaterno, None))
  {
    TrimStartPadding(pad, p.nombre);
  }
}
