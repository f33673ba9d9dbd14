/** PatientsController: the patient queries (audit years, audit listing,
    search with paging, lookup, duplicate check) and the create, update and
    delete actions on the Pacientes table. "Today" and "now" are
    parameters. */
module PatientsController {
  import opened Common
  import opened Dates
  import opened Entities
  import opened Data
  import opened PatientExtensions

  /** The DTO the controller builds inline: every PatientDto property,
      Edad from the birth date; PatientDto has no birth-date property, so
      the JSON carries none. */
  function ListDto(p: Patient, today: Date): (r: PatientDto)
    ensures r.id == p.id && r.nombre == p.nombre && r.fechaRegistro == p.fechaRegistro
    ensures r.edad == CalculateAge(p.fechaNacimiento, today)
    ensures r.fechaNacimiento.None?
  {
    PatientDto(p.id, p.nombre, p.apellidoPaterno, p.apellidoMaterno, p.telefono, p.email,
               p.direccion, None, CalculateAge(p.fechaNacimiento, today),
               p.ocupacion, p.notas, p.fechaRegistro, p.estaActivo)
  }

  /** The inline DTO is ToDto without the birth date. */
  lemma ListDtoIsToDtoWithoutBirthDate(p: Patient, today: Date)
    ensures ListDto(p, today) == ToDto(p, today).(fechaNacimiento := None)
  {
  }

  function Dtos(ps: seq<Patient>, today: Date): (r: seq<PatientDto>)
    ensures |r| == |ps|
    ensures forall i :: 0 <= i < |ps| ==> r[i] == ListDto(ps[i], today)
  {
    Map(ps, (p: Patient) => ListDto(p, today))
  }

  // ------------------------------------------------------------ audit years

  predicate StrictlyDescending(s: seq<int>)
  {
    forall i, j :: 0 <= i < j < |s| ==> s[i] > s[j]
  }

  /** A head above every element of a strictly descending list keeps it
      strictly descending. */
  lemma ConsDescending(h: int, s: seq<int>)
    requires StrictlyDescending(s)
    requires forall y :: y in s ==> y < h
    ensures StrictlyDescending([h] + s)
  {
    forall i, j | 0 <= i < j < |[h] + s|
      ensures ([h] + s)[i] > ([h] + s)[j]
    {
      if i > 0 {
        assert ([h] + s)[i] == s[i - 1] && ([h] + s)[j] == s[j - 1];
      } else {
        assert ([h] + s)[j] == s[j - 1] && s[j - 1] in s;
      }
    }
  }

  /** Adds x to a strictly descending list, keeping it so and dropping x
      when it is already present. */
  function InsertDescending(x: int, s: seq<int>): (r: seq<int>)
    requires StrictlyDescending(s)
    ensures StrictlyDescending(r)
    ensures forall y :: y in r <==> y == x || y in s
  {
    if s == [] then [x]
    else if x > s[0] then
      assert forall y :: y in s ==> y < x by {
        forall y | y in s ensures y < x {
          var k :| 0 <= k < |s| && s[k] == y;
          assert k == 0 || s[0] > s[k];
        }
      }
      ConsDescending(x, s);
      [x] + s
    else if x == s[0] then s
    else
      var tail := s[1..];
      assert StrictlyDescending(tail) by {
        forall i, j | 0 <= i < j < |tail| ensures tail[i] > tail[j] {
          assert tail[i] == s[i + 1] && tail[j] == s[j + 1];
        }
      }
      assert forall y :: y in tail ==> y < s[0] by {
        forall y | y in tail ensures y < s[0] {
          var k :| 0 <= k < |tail| && tail[k] == y;
          assert s[k + 1] == y;
        }
      }
      var rest := InsertDescending(x, tail);
      assert s == [s[0]] + tail;
      ConsDescending(s[0], rest);
      [s[0]] + rest
  }

  /** Distinct().OrderByDescending(y => y) */
  function DistinctDescending(xs: seq<int>): (r: seq<int>)
    ensures StrictlyDescending(r)
    ensures forall y :: y in r <==> y in xs
  {
    if xs == [] then []
    else
      var rest := DistinctDescending(xs[..|xs| - 1]);
      assert xs == xs[..|xs| - 1] + [xs[|xs| - 1]];
      InsertDescending(xs[|xs| - 1], rest)
  }

  function RegistrationYears(pacientes: seq<Patient>): (r: seq<int>)
    ensures |r| == |pacientes|
    ensures forall i :: 0 <= i < |pacientes| ==> r[i] == pacientes[i].fechaRegistro.date.year
  {
    Map(pacientes, (p: Patient) => p.fechaRegistro.date.year)
  }

  /** GetAuditYears: each registration year once, newest first. */
  function GetAuditYears(pacientes: seq<Patient>): (r: seq<int>)
    ensures StrictlyDescending(r)
    ensures forall y :: y in r <==> exists i :: 0 <= i < |pacientes| && pacientes[i].fechaRegistro.date.year == y
  {
    var ys := RegistrationYears(pacientes);
    assert forall y :: y in ys <==> exists i :: 0 <= i < |pacientes| && pacientes[i].fechaRegistro.date.year == y by {
      forall y ensures y in ys <==> exists i :: 0 <= i < |pacientes| && pacientes[i].fechaRegistro.date.year == y {
        if y in ys {
          var i :| 0 <= i < |ys| && ys[i] == y;
          assert pacientes[i].fechaRegistro.date.year == y;
        }
      }
    }
    DistinctDescending(ys)
  }

  // -------------------------------------------------------------- audit list

  /** ORDER BY on a nullable text column, ascending: nulls last. */
  predicate OptStrLess(a: Option<string>, b: Option<string>)
  {
    a.Some? && (b.None? || StrLess(a.value, b.value))
  }

  /** OrderBy(ApellidoPaterno).ThenBy(ApellidoMaterno).ThenBy(Nombre) */
  predicate AuditLess(a: Patient, b: Patient)
  {
    || OptStrLess(a.apellidoPaterno, b.apellidoPaterno)
    || (a.apellidoPaterno == b.apellidoPaterno
        && (|| OptStrLess(a.apellidoMaterno, b.apellidoMaterno)
            || (a.apellidoMaterno == b.apellidoMaterno && StrLess(a.nombre, b.nombre))))
  }

  predicate AuditLe(a: Patient, b: Patient)
  {
    !AuditLess(b, a)
  }

  lemma OptStrLessFacts(a: Option<string>, b: Option<string>, c: Option<string>)
    ensures !OptStrLess(a, a)
    ensures OptStrLess(a, b) || a == b || OptStrLess(b, a)
    ensures !(OptStrLess(a, b) && OptStrLess(b, a))
    ensures OptStrLess(a, c) ==> OptStrLess(a, b) || OptStrLess(b, c)
  {
    if a.Some? {
      StrLessIrreflexive(a.value);
    }
    if a.Some? && b.Some? {
      StrLessTrichotomy(a.value, b.value);
      if StrLess(a.value, b.value) && StrLess(b.value, a.value) {
        StrLessTransitive(a.value, b.value, a.value);
      }
    }
    if OptStrLess(a, c) && b.Some? && c.Some? {
      StrLessSplit(a.value, b.value, c.value);
    }
  }

  /** AuditLess is a strict weak order: irreflexive, asymmetric, and any
      third patient falls after the first or before the second of a pair. */
  lemma AuditLessFacts(a: Patient, b: Patient, c: Patient)
    ensures !AuditLess(a, a)
    ensures !(AuditLess(a, b) && AuditLess(b, a))
    ensures AuditLess(a, c) ==> AuditLess(a, b) || AuditLess(b, c)
  {
    OptStrLessFacts(a.apellidoPaterno, b.apellidoPaterno, c.apellidoPaterno);
    OptStrLessFacts(a.apellidoMaterno, b.apellidoMaterno, c.apellidoMaterno);
    StrLessIrreflexive(a.nombre);
    if StrLess(a.nombre, b.nombre) && StrLess(b.nombre, a.nombre) {
      StrLessTransitive(a.nombre, b.nombre, a.nombre);
    }
    if StrLess(a.nombre, c.nombre) {
      StrLessSplit(a.nombre, b.nombre, c.nombre);
    }
  }

  lemma AuditLeIsPreorder(s: seq<Patient>)
    ensures PreorderOn(AuditLe, s)
  {
    forall a, b | a in s && b in s ensures AuditLe(a, b) || AuditLe(b, a) {
      AuditLessFacts(a, b, b);
    }
    forall a, b, c | a in s && b in s && c in s && AuditLe(a, b) && AuditLe(b, c)
      ensures AuditLe(a, c)
    {
      AuditLessFacts(c, b, a);
    }
  }

  /** The first letter of the request, lowercased. */
  function AuditPrefix(letter: string): (r: string)
    requires letter != ""
    ensures |r| == 1 && r[0] == LowerChar(letter[0])
  {
    Lower(letter)[..1]
  }

  predicate AuditKeep(p: Patient, year: int, prefix: string)
  {
    && p.fechaRegistro.date.year == year
    && p.apellidoPaterno.Some?
    && StartsWith(Lower(p.apellidoPaterno.value), prefix)
  }

  function AuditRows(pacientes: seq<Patient>, year: int, prefix: string): seq<Patient>
  {
    SortBy(Filter(pacientes, (p: Patient) => AuditKeep(p, year, prefix)), AuditLe)
  }

  /** GetAuditPatients: a null or empty letter is rejected; otherwise the
      patients registered that year whose paternal surname starts with the
      letter, ignoring case, by surnames then name. */
  function GetAuditPatients(pacientes: seq<Patient>, year: int, letter: Option<string>, today: Date)
    : (r: Result<seq<PatientDto>>)
    ensures IsNullOrEmpty(letter) <==> r == Fail(BadRequest)
    ensures r.Ok? ==> r.value == Dtos(AuditRows(pacientes, year, AuditPrefix(letter.value)), today)
  {
    if IsNullOrEmpty(letter) then Fail(BadRequest)
    else Ok(Dtos(AuditRows(pacientes, year, AuditPrefix(letter.value)), today))
  }

  /** The audit rows are exactly the matching patients, sorted by
      surnames then name. */
  lemma AuditRowsSpec(pacientes: seq<Patient>, year: int, prefix: string)
    ensures var rows := AuditRows(pacientes, year, prefix);
            && multiset(rows) == multiset(Filter(pacientes, (p: Patient) => AuditKeep(p, year, prefix)))
            && SortedBy(AuditLe, rows)
            && (forall x :: x in rows <==> x in pacientes && AuditKeep(x, year, prefix))
  {
    var kept := Filter(pacientes, (p: Patient) => AuditKeep(p, year, prefix));
    AuditLeIsPreorder(kept);
    SortSorted(kept, AuditLe);
    SortByMembers(kept, AuditLe);
  }

  /** Only the first character of the letter matters, and not its case. */
  lemma AuditUsesFirstLetterOnly(pacientes: seq<Patient>, year: int, l1: string, l2: string, today: Date)
    requires l1 != "" && l2 != "" && LowerChar(l1[0]) == LowerChar(l2[0])
    ensures GetAuditPatients(pacientes, year, Some(l1), today) == GetAuditPatients(pacientes, year, Some(l2), today)
  {
    assert AuditPrefix(l1) == AuditPrefix(l2);
  }

  // ------------------------------------------------------- search and paging

  /** The search term matches the lowercased name, paternal surname or
      email, or the phone as stored. */
  predicate SearchKeep(p: Patient, term: string)
  {
    || Contains(Lower(p.nombre), term)
    || (p.apellidoPaterno.Some? && Contains(Lower(p.apellidoPaterno.value), term))
    || (p.telefono.Some? && Contains(p.telefono.value, term))
    || (p.email.Some? && Contains(Lower(p.email.value), term))
  }

  function Searched(pacientes: seq<Patient>, search: Option<string>): (r: seq<Patient>)
    ensures IsNullOrEmpty(search) ==> r == pacientes
    ensures !IsNullOrEmpty(search) ==> forall x :: x in r <==> x in pacientes && SearchKeep(x, Lower(search.value))
  {
    if IsNullOrEmpty(search) then pacientes
    else Filter(pacientes, (p: Patient) => SearchKeep(p, Lower(search.value)))
  }

  predicate IsInt32(x: int)
  {
    Int32Min <= x < Int32Min + TwoTo32
  }

  /** (page - 1) * pageSize in C#'s unchecked 32-bit arithmetic. */
  function PageOffset(page: int, pageSize: int): int
  {
    WrapInt32(WrapInt32(page - 1) * pageSize)
  }

  /** The first position of a page from 1 on, without wrap-around. */
  function PageStart(page: int, pageSize: int): (r: nat)
    requires page >= 1 && pageSize > 0
  {
    NonNegativeProduct(page - 1, pageSize);
    (page - 1) * pageSize
  }

  /** Math.Ceiling(total / (double)pageSize) for a positive page size. */
  function TotalPages(total: nat, pageSize: int): (r: int)
    requires pageSize > 0
  {
    var x := total as real / pageSize as real;
    if x == x.Floor as real then x.Floor else x.Floor + 1
  }

  /** The real quotient's floor is the integer quotient, and it is whole
      exactly when the division leaves no remainder. */
  lemma {:induction false} TotalPagesByDivision(total: nat, pageSize: int)
    requires pageSize > 0
    ensures TotalPages(total, pageSize) == total / pageSize + (if total % pageSize == 0 then 0 else 1)
  {
    var p := pageSize as real;
    var q := total / pageSize;
    var r := total % pageSize;
    var x := total as real / p;
    assert total == q * pageSize + r;
    assert total as real == q as real * p + r as real by {
      assert (q * pageSize) as real == q as real * p;
    }
    var frac := r as real / p;
    assert x == q as real + frac by {
      assert total as real / p == (q as real * p) / p + r as real / p;
    }
    assert 0.0 <= frac < 1.0 by {
      assert frac * p == r as real;
    }
    var f := x.Floor;
    assert f == q by {
      assert f as real <= x < f as real + 1.0;
    }
    assert (x == f as real) == (r == 0) by {
      if r != 0 {
        assert frac * p == r as real;
      }
    }
  }

  /** The page count is the least count of pages of that size holding every
      item. */
  lemma TotalPagesIsCeiling(total: nat, pageSize: int)
    requires pageSize > 0
    ensures var n := TotalPages(total, pageSize);
            && n >= 0
            && n * pageSize >= total
            && (n == 0 || (n - 1) * pageSize < total)
            && (n == 0 <==> total == 0)
  {
    TotalPagesByDivision(total, pageSize);
    var q := total / pageSize;
    var r := total % pageSize;
    assert total == q * pageSize + r && 0 <= r < pageSize;
    if r == 0 {
      assert TotalPages(total, pageSize) == q;
      if q > 0 {
        assert (q - 1) * pageSize == q * pageSize - pageSize;
      }
    } else {
      assert TotalPages(total, pageSize) == q + 1;
      assert (q + 1) * pageSize == q * pageSize + pageSize;
    }
  }

  /** The item at a zero-based position of the sorted list is on page
      position / pageSize + 1, which is within the page count. */
  lemma EveryItemOnAPage(total: nat, pageSize: int, position: nat)
    requires pageSize > 0 && position < total
    ensures var page := position / pageSize + 1;
            && 1 <= page <= TotalPages(total, pageSize)
            && (page - 1) * pageSize <= position < page * pageSize
  {
    TotalPagesIsCeiling(total, pageSize);
    var n := TotalPages(total, pageSize);
    var q := position / pageSize;
    var page := q + 1;
    assert position == q * pageSize + position % pageSize;
    assert page * pageSize == q * pageSize + pageSize;
  }

  datatype PatientPage = PatientPage(
    items: seq<PatientDto>,
    totalItems: int,
    page: int,
    pageSize: int,
    totalPages: Option<int>)

  /** The search results sorted newest first. */
  function SearchOrder(pacientes: seq<Patient>, search: Option<string>): seq<Patient>
  {
    SortBy(Searched(pacientes, search), NewerOrSame)
  }

  /** GetPatients: search, count, newest first, Skip((page-1)*pageSize),
      Take(pageSize). PostgreSQL rejects a negative OFFSET or LIMIT, which
      the action reports as a server error. */
  function GetPatients(pacientes: seq<Patient>, search: Option<string>, page: int, pageSize: int, today: Date)
    : (r: Result<PatientPage>)
    requires IsInt32(page) && IsInt32(pageSize)
    ensures r.Fail? <==> PageOffset(page, pageSize) < 0 || pageSize < 0
    ensures r.Fail? ==> r.failure == ServerError
    ensures r.Ok? ==> r.value.totalItems == |Searched(pacientes, search)| && r.value.page == page
  {
    var filtered := Searched(pacientes, search);
    var offset := PageOffset(page, pageSize);
    if offset < 0 || pageSize < 0 then Fail(ServerError)
    else
      var rows := Take(Skip(SortBy(filtered, NewerOrSame), offset), pageSize);
      Ok(PatientPage(Dtos(rows, today), |filtered|, page, pageSize,
                     if pageSize == 0 then None else Some(TotalPages(|filtered|, pageSize))))
  }

  /** A page from 1 on is the slice of the newest-first search results
      starting at (page-1)*pageSize, of at most pageSize items, and the
      search results are sorted newest first. */
  lemma GetPatientsPage(pacientes: seq<Patient>, search: Option<string>, page: int, pageSize: int, today: Date)
    requires IsInt32(page) && IsInt32(pageSize)
    requires page >= 1 && pageSize > 0 && IsInt32((page - 1) * pageSize)
    ensures var r := GetPatients(pacientes, search, page, pageSize, today);
            var sorted := SearchOrder(pacientes, search);
            var start := PageStart(page, pageSize);
            && r.Ok?
            && SortedBy(NewerOrSame, sorted)
            && |r.value.items| == (if start >= |sorted| then 0 else if |sorted| - start < pageSize then |sorted| - start else pageSize)
            && (forall i :: 0 <= i < |r.value.items| ==>
                  start + i < |sorted| && r.value.items[i] == ListDto(sorted[start + i], today))
            && r.value.totalPages == Some(TotalPages(|sorted|, pageSize))
  {
    var filtered := Searched(pacientes, search);
    var sorted := SortBy(filtered, NewerOrSame);
    NewerOrSameIsPreorder(filtered);
    SortSorted(filtered, NewerOrSame);
    var start := PageStart(page, pageSize);
    PageOffsetInRange(page, pageSize);
    var rows := Take(Skip(sorted, start), pageSize);
    PageWindow(sorted, start, pageSize);
    assert |sorted| == |filtered|;
    assert GetPatients(pacientes, search, page, pageSize, today)
           == Ok(PatientPage(Dtos(rows, today), |filtered|, page, pageSize, Some(TotalPages(|filtered|, pageSize))));
  }

  /** The window Skip(start).Take(size) of a list. */
  lemma PageWindow<T>(s: seq<T>, start: nat, size: nat)
    ensures var rows := Take(Skip(s, start), size);
            && |rows| == (if start >= |s| then 0 else if |s| - start < size then |s| - start else size)
            && forall i :: 0 <= i < |rows| ==> rows[i] == s[start + i]
  {
    var skipped := Skip(s, start);
    assert |skipped| == (if start >= |s| then 0 else |s| - start);
    var rows := Take(skipped, size);
    forall i | 0 <= i < |rows| ensures rows[i] == s[start + i] {
      assert rows[i] == skipped[i];
    }
  }

  /** Without overflow the unchecked offset is the plain one. */
  lemma PageOffsetInRange(page: int, pageSize: int)
    requires IsInt32(page) && page >= 1 && pageSize > 0 && IsInt32((page - 1) * pageSize)
    ensures PageOffset(page, pageSize) == (page - 1) * pageSize >= 0
  {
    var start := (page - 1) * pageSize;
    assert 0 <= start by {
      NonNegativeProduct(page - 1, pageSize);
    }
    assert WrapInt32(page - 1) == page - 1;
  }

  lemma NonNegativeProduct(a: int, b: int)
    requires a >= 0 && b >= 0
    ensures a * b >= 0
  {
  }

  // --------------------------------------------------------------- lookup

  function PatientIndex(pacientes: seq<Patient>, id: Guid): (r: Option<nat>)
    ensures r.Some? ==> r.value < |pacientes| && pacientes[r.value].id == id
    ensures r.Some? ==> forall k :: 0 <= k < r.value ==> pacientes[k].id != id
    ensures r.None? <==> forall k :: 0 <= k < |pacientes| ==> pacientes[k].id != id
  {
    if pacientes == [] then None
    else if pacientes[0].id == id then Some(0)
    else
      var r := PatientIndex(pacientes[1..], id);
      if r.Some? then Some(r.value + 1) else None
  }

  /** GetPatient: the patient with that id as a DTO, or NotFound. */
  function GetPatient(pacientes: seq<Patient>, id: Guid, today: Date): (r: Result<PatientDto>)
    ensures r.Fail? <==> forall k :: 0 <= k < |pacientes| ==> pacientes[k].id != id
    ensures r.Fail? ==> r.failure == NotFound
    ensures r.Ok? ==> r.value.id == id && exists k :: 0 <= k < |pacientes| && r.value == ListDto(pacientes[k], today)
  {
    match PatientIndex(pacientes, id)
    case None => Fail(NotFound)
    case Some(i) => Ok(ListDto(pacientes[i], today))
  }

  // ------------------------------------------------------ duplicate check

  /** The request normalised once: trimmed; lowercased except the phone. */
  datatype CheckProbe = CheckProbe(
    name: string,
    paterno: Option<string>,
    phone: Option<string>,
    email: Option<string>,
    address: Option<string>)

  function TrimLower(s: Option<string>): (r: Option<string>)
    ensures r.Some? <==> s.Some?
  {
    if s.Some? then Some(Lower(Trim(s.value))) else None
  }

  function CheckProbeOf(m: CreatePatientDto): CheckProbe
  {
    CheckProbe(Lower(Trim(m.nombre)), TrimLower(m.apellidoPaterno),
               if m.telefono.Some? then Some(Trim(m.telefono.value)) else None,
               TrimLower(m.email), TrimLower(m.direccion))
  }

  predicate SamePaterno(p: Patient, q: CheckProbe)
  {
    p.apellidoPaterno.Some? && q.paterno.Some? && Lower(p.apellidoPaterno.value) == q.paterno.value
  }

  /** The four cases, as written: name and paternal surname; exact phone;
      email ignoring case; address and paternal surname. */
  predicate CheckMatch(p: Patient, q: CheckProbe)
  {
    || (Lower(p.nombre) == q.name && SamePaterno(p, q))
    || (q.phone.Some? && p.telefono == q.phone)
    || (q.email.Some? && p.email.Some? && Lower(p.email.value) == q.email.value)
    || (q.address.Some? && p.direccion.Some? && Lower(p.direccion.value) == q.address.value && SamePaterno(p, q))
  }

  /** The patients meeting one of the four cases, in store order. */
  function CheckMatches(pacientes: seq<Patient>, q: CheckProbe): seq<Patient>
  {
    Filter(pacientes, (p: Patient) => CheckMatch(p, q))
  }

  function CheckRows(pacientes: seq<Patient>, q: CheckProbe): (r: seq<Patient>)
    ensures |r| == (if |CheckMatches(pacientes, q)| <= 10 then |CheckMatches(pacientes, q)| else 10)
    ensures multiset(r) <= multiset(CheckMatches(pacientes, q))
    ensures forall x :: x in r ==> x in pacientes && CheckMatch(x, q)
  {
    var matches := CheckMatches(pacientes, q);
    assert forall x :: x in matches ==> x in pacientes && CheckMatch(x, q) by {
      forall x | x in matches ensures x in pacientes && CheckMatch(x, q) {
        var i :| 0 <= i < |matches| && matches[i] == x;
      }
    }
    SortByMembers(matches, NewerOrSame);
    TakeSubMultiset(SortBy(matches, NewerOrSame), 10);
    var r := Take(SortBy(matches, NewerOrSame), 10);
    assert forall x :: x in r ==> x in SortBy(matches, NewerOrSame) by {
      forall x | x in r ensures x in SortBy(matches, NewerOrSame) {
        var i :| 0 <= i < |r| && r[i] == x;
      }
    }
    r
  }

  /** CheckDuplicates: a request without a name is answered 400 by the
      [Required] attribute before the action runs; otherwise at most ten
      matching patients, newest first, as list rows. */
  function CheckDuplicates(pacientes: seq<Patient>, model: CreatePatientDto, today: Date)
    : (r: Result<seq<PatientDto>>)
    ensures r.Fail? <==> !NombreValid(model.nombre)
    ensures r.Fail? ==> r.failure == BadRequest
    ensures r.Ok? ==> |r.value| == |CheckRows(pacientes, CheckProbeOf(model))| <= 10
    ensures r.Ok? ==> forall i :: 0 <= i < |r.value| ==>
                        r.value[i] == ListDto(CheckRows(pacientes, CheckProbeOf(model))[i], today)
    ensures r.Ok? ==> forall i :: 0 <= i < |r.value| ==> r.value[i].fechaNacimiento.None?
  {
    if !NombreValid(model.nombre) then Fail(BadRequest)
    else Ok(Dtos(CheckRows(pacientes, CheckProbeOf(model)), today))
  }

  /** The check returns the ten newest matches, newest first: no match
      left out was registered after one returned. */
  lemma CheckRowsOrderAndCompleteness(pacientes: seq<Patient>, q: CheckProbe)
    ensures var r := CheckRows(pacientes, q);
            var matches := CheckMatches(pacientes, q);
            && SortedBy(NewerOrSame, r)
            && (|matches| <= 10 ==> multiset(r) == multiset(matches))
            && (forall x, y | x in r && y in multiset(matches) - multiset(r) :: NewerOrSame(x, y))
  {
    var matches := CheckMatches(pacientes, q);
    NewerOrSameIsPreorder(matches);
    SortSorted(matches, NewerOrSame);
    TakeSorted(NewerOrSame, SortBy(matches, NewerOrSame), 10);
    TakeSortedTop(matches, NewerOrSame, 10);
  }

  /** As written, a blank phone (the form sends "" for an empty field)
      matches every patient stored with a blank phone, whatever the name:
      here a patient with another name and surname is reported. */
  lemma BlankPhoneMatchesStrangers()
    ensures var stranger := Patient(1, "Ana", Some("Lopez"), None, None, Some(""), None, None, None, None,
                                    true, AtMidnight(Date(2020, 1, 1)), None);
            var request := CreatePatientDto("Luis", Some("Perez"), None, None, Some(""), Some(""), Some(""),
                                            None, None, None);
            var today := Date(2024, 1, 1);
            CheckDuplicates([stranger], request, today) == Ok([ListDto(stranger, today)])
  {
    var stranger := Patient(1, "Ana", Some("Lopez"), None, None, Some(""), None, None, None, None,
                            true, AtMidnight(Date(2020, 1, 1)), None);
    var request := CreatePatientDto("Luis", Some("Perez"), None, None, Some(""), Some(""), Some(""),
                                    None, None, None);
    assert CheckMatch(stranger, CheckProbeOf(request));
    assert CheckMatches([stranger], CheckProbeOf(request)) == [stranger];
    assert SortBy([stranger], NewerOrSame) == [stranger];
    assert CheckRows([stranger], CheckProbeOf(request)) == [stranger];
    assert Trim("Luis") == "Luis";
    var today := Date(2024, 1, 1);
    assert Dtos([stranger], today) == [ListDto(stranger, today)];
  }

  /** A field that is absent or blank once trimmed takes part in no case. */
  function Provided(s: Option<string>): (r: Option<string>)
    ensures r.Some? ==> s.Some? && r.value == s.value && r.value != ""
    ensures s.Some? && s.value != "" ==> r == s
  {
    if s.Some? && s.value != "" then s else None
  }

  function CheckProbeCorrected(m: CreatePatientDto): (r: CheckProbe)
    ensures r.phone.Some? ==> r.phone.value != ""
    ensures r.email.Some? ==> r.email.value != ""
    ensures r.address.Some? ==> r.address.value != ""
  {
    var q := CheckProbeOf(m);
    q.(phone := Provided(q.phone), email := Provided(q.email), address := Provided(q.address))
  }

  /** CheckDuplicates with blank fields treated as not provided, as the
      comments on the cases say ("if provided"). */
  function CheckDuplicatesCorrected(pacientes: seq<Patient>, model: CreatePatientDto, today: Date)
    : (r: Result<seq<PatientDto>>)
    ensures r.Fail? <==> !NombreValid(model.nombre)
    ensures r.Fail? ==> r.failure == BadRequest
    ensures r.Ok? ==> |r.value| <= 10
    ensures r.Ok? ==> forall i :: 0 <= i < |r.value| ==>
                        exists p :: p in pacientes && CheckMatch(p, CheckProbeCorrected(model)) &&
                                    r.value[i] == ListDto(p, today)
  {
    if !NombreValid(model.nombre) then Fail(BadRequest)
    else
      var rows := CheckRows(pacientes, CheckProbeCorrected(model));
      var r := Dtos(rows, today);
      assert forall i :: 0 <= i < |r| ==> rows[i] in rows;
      Ok(r)
  }

  /** Corrected: when the request has no usable phone, email or address,
      a patient is reported only for the same name and paternal surname. */
  lemma CorrectedBlankFieldsMatchOnlyByName(p: Patient, m: CreatePatientDto)
    requires m.telefono.None? || Trim(m.telefono.value) == ""
    requires m.email.None? || Lower(Trim(m.email.value)) == ""
    requires m.direccion.None? || Lower(Trim(m.direccion.value)) == ""
    ensures var q := CheckProbeCorrected(m);
            CheckMatch(p, q) <==> Lower(p.nombre) == q.name && SamePaterno(p, q)
  {
  }

  /** Corrected: for requests whose phone, email and address are all
      non-blank (or absent), the correction changes nothing. */
  lemma CorrectedAgreesOnNonBlank(pacientes: seq<Patient>, m: CreatePatientDto, today: Date)
    requires m.telefono.None? || Trim(m.telefono.value) != ""
    requires m.email.None? || Lower(Trim(m.email.value)) != ""
    requires m.direccion.None? || Lower(Trim(m.direccion.value)) != ""
    ensures CheckDuplicatesCorrected(pacientes, m, today) == CheckDuplicates(pacientes, m, today)
  {
    assert CheckProbeCorrected(m) == CheckProbeOf(m);
  }

  // ---------------------------------------------------------- create / update

  /** [Required] on Nombre: null, empty or white-space-only is rejected
      before the action runs. */
  predicate NombreValid(nombre: string)
  {
    Trim(nombre) != ""
  }

  function NewPatient(m: CreatePatientDto, id: Guid, now: DateTime): (r: Patient)
    ensures r.id == id && r.estaActivo && r.metadata.None?
    ensures r.nombre == m.nombre && r.fechaNacimiento == m.fechaNacimiento
    ensures r.fechaRegistro == SpecifyUtcIfUnspecified(if m.fechaRegistro.Some? then m.fechaRegistro.value else now)
  {
    var fecha := if m.fechaRegistro.Some? then m.fechaRegistro.value else now;
    Patient(id, m.nombre, m.apellidoPaterno, m.apellidoMaterno, m.fechaNacimiento, m.telefono, m.email,
            m.direccion, m.ocupacion, m.notas, true, SpecifyUtcIfUnspecified(fecha), None)
  }

  function CreatePatientSpec(t: Tables, m: CreatePatientDto, now: DateTime): Outcome<Guid>
  {
    if !NombreValid(m.nombre) then Outcome(t, Fail(BadRequest))
    else
      var t' := t.(pacientes := t.pacientes + [NewPatient(m, t.nextId, now)], nextId := t.nextId + 1);
      if DbConstraints(t') then Outcome(t', Ok(t.nextId)) else Outcome(t, Fail(ServerError))
  }

  /** Adding a row with a fresh key to Pacientes keeps the database
      constraints: no foreign key can be broken by a new patient. */
  lemma AddPatientKeepsConstraints(t: Tables, p: Patient)
    requires Consistent(t) && p.id >= t.nextId
    ensures var t' := t.(pacientes := t.pacientes + [p], nextId := p.id + 1);
            Consistent(t')
  {
    var t' := t.(pacientes := t.pacientes + [p], nextId := p.id + 1);
    assert PatientIds(t') == PatientIds(t) + {p.id};
    forall c | c in t'.consultas ensures ConsultationOk(t', c) {
      assert ConsultationOk(t, c);
    }
    forall d | d in t'.detalleVentas ensures SaleDetailOk(t', d) {
      assert SaleDetailOk(t, d);
    }
    forall s | s in t'.ventas ensures SaleOk(t', s) {
      assert SaleOk(t, s);
    }
    forall g | g in t'.graduaciones ensures GraduationOk(t', g) {
      assert GraduationOk(t, g);
    }
    forall a | a in t'.abonos ensures PaymentOk(t', a) {
      assert PaymentOk(t, a);
    }
  }

  /** A request with a valid name always creates an active patient with a
      fresh id, registered at the supplied date (or now) labelled UTC. */
  lemma CreatePatientSucceeds(t: Tables, m: CreatePatientDto, now: DateTime)
    requires Consistent(t) && NombreValid(m.nombre)
    ensures var o := CreatePatientSpec(t, m, now);
            && o.result == Ok(t.nextId)
            && o.tables.pacientes == t.pacientes + [NewPatient(m, t.nextId, now)]
            && Consistent(o.tables)
            && (forall k :: 0 <= k < |t.pacientes| ==> t.pacientes[k].id != t.nextId)
  {
    var p := NewPatient(m, t.nextId, now);
    var t' := t.(pacientes := t.pacientes + [p], nextId := t.nextId + 1);
    AddPatientKeepsConstraints(t, p);
    assert CreatePatientSpec(t, m, now) == Outcome(t', Ok(t.nextId));
    forall k | 0 <= k < |t.pacientes| ensures t.pacientes[k].id != t.nextId {
      assert t.pacientes[k] in t.pacientes;
    }
  }

  method CreatePatient(ctx: ApplicationDbContext, m: CreatePatientDto, now: DateTime) returns (r: Result<Guid>)
    requires ctx.Valid()
    modifies ctx
    ensures Outcome(ctx.Snapshot(), r) == CreatePatientSpec(old(ctx.Snapshot()), m, now)
    ensures ctx.Valid()
  {
    if !NombreValid(m.nombre) {
      return Fail(BadRequest);
    }
    var saved := ctx.Snapshot();
    var fecha := if m.fechaRegistro.Some? then m.fechaRegistro.value else now;
    if fecha.kind == Unspecified {
      fecha := fecha.(kind := Utc);
    }
    var id := ctx.NewGuid();
    var p := Patient(id, m.nombre, m.apellidoPaterno, m.apellidoMaterno, m.fechaNacimiento, m.telefono,
                     m.email, m.direccion, m.ocupacion, m.notas, true, fecha, None);
    assert p == NewPatient(m, saved.nextId, now);
    ctx.AddPatient(p);
    assert ctx.Snapshot() == saved.(pacientes := saved.pacientes + [p], nextId := saved.nextId + 1);
    var ok := ctx.SaveChanges();
    if !ok {
      ctx.Restore(saved);
      return Fail(ServerError);
    }
    AddPatientKeepsConstraints(saved, p);
    r := Ok(id);
  }

  /** The field assignments of UpdatePatient. */
  function ApplyUpdate(p: Patient, m: UpdatePatientDto): (r: Patient)
    ensures r.id == p.id && r.metadata == p.metadata
    ensures m.fields.fechaRegistro.None? ==> r.fechaRegistro == p.fechaRegistro
    ensures m.fields.fechaRegistro.Some? ==> r.fechaRegistro == SpecifyUtcIfUnspecified(m.fields.fechaRegistro.value)
  {
    var f := m.fields;
    Patient(p.id, f.nombre, f.apellidoPaterno, f.apellidoMaterno, f.fechaNacimiento, f.telefono, f.email,
            f.direccion, f.ocupacion, f.notas, m.estaActivo,
            if f.fechaRegistro.Some? then SpecifyUtcIfUnspecified(f.fechaRegistro.value) else p.fechaRegistro,
            p.metadata)
  }

  /** The request that describes a stored patient exactly. */
  function UpdateOf(p: Patient): UpdatePatientDto
  {
    UpdatePatientDto(CreatePatientDto(p.nombre, p.apellidoPaterno, p.apellidoMaterno, p.fechaNacimiento,
                                      p.telefono, p.email, p.direccion, p.ocupacion, p.notas, None),
                     p.estaActivo)
  }

  /** Every listed field is overwritten: updating with a patient's own
      fields and no date leaves it unchanged, and applying an update twice
      is the same as once. */
  lemma ApplyUpdateOverwrites(p: Patient, m: UpdatePatientDto)
    ensures ApplyUpdate(p, UpdateOf(p)) == p
    ensures ApplyUpdate(ApplyUpdate(p, m), m) == ApplyUpdate(p, m)
    ensures UpdateOf(ApplyUpdate(p, m)) == m.(fields := m.fields.(fechaRegistro := None))
  {
  }

  function UpdatePatientSpec(t: Tables, id: Guid, m: UpdatePatientDto): Outcome<()>
  {
    if !NombreValid(m.fields.nombre) then Outcome(t, Fail(BadRequest))
    else match PatientIndex(t.pacientes, id)
      case None => Outcome(t, Fail(NotFound))
      case Some(i) =>
        var t' := t.(pacientes := t.pacientes[i := ApplyUpdate(t.pacientes[i], m)]);
        if DbConstraints(t') then Outcome(t', Ok(())) else Outcome(t, Fail(ServerError))
  }

  /** Replacing a patient row by one with the same key keeps the
      constraints. */
  lemma ReplacePatientKeepsConstraints(t: Tables, i: nat, p: Patient)
    requires Consistent(t) && i < |t.pacientes| && p.id == t.pacientes[i].id
    ensures Consistent(t.(pacientes := t.pacientes[i := p]))
  {
    var t' := t.(pacientes := t.pacientes[i := p]);
    assert PatientIds(t') == PatientIds(t) by {
      forall x | x in PatientIds(t) ensures x in PatientIds(t') {
        var q :| q in t.pacientes && q.id == x;
        var k :| 0 <= k < |t.pacientes| && t.pacientes[k] == q;
        assert t'.pacientes[k].id == x;
      }
    }
    forall c | c in t'.consultas ensures ConsultationOk(t', c) {
      assert ConsultationOk(t, c);
    }
    forall d | d in t'.detalleVentas ensures SaleDetailOk(t', d) {
      assert SaleDetailOk(t, d);
    }
  }

  /** An update of a known id with a valid name succeeds and changes that
      row only; an unknown id is NotFound and changes nothing. */
  lemma UpdatePatientEffect(t: Tables, id: Guid, m: UpdatePatientDto)
    requires Consistent(t) && NombreValid(m.fields.nombre)
    ensures var o := UpdatePatientSpec(t, id, m);
            && ((forall k :: 0 <= k < |t.pacientes| ==> t.pacientes[k].id != id) <==> o.result == Fail(NotFound))
            && (o.result == Fail(NotFound) ==> o.tables == t)
            && (o.result != Fail(NotFound) ==>
                  && o.result == Ok(())
                  && Consistent(o.tables)
                  && |o.tables.pacientes| == |t.pacientes|
                  && forall k :: 0 <= k < |t.pacientes| ==>
                       o.tables.pacientes[k] == if t.pacientes[k].id == id then ApplyUpdate(t.pacientes[k], m)
                                                else t.pacientes[k])
  {
    match PatientIndex(t.pacientes, id)
    case None =>
    case Some(i) =>
      ReplacePatientKeepsConstraints(t, i, ApplyUpdate(t.pacientes[i], m));
  }

  method UpdatePatient(ctx: ApplicationDbContext, id: Guid, m: UpdatePatientDto) returns (r: Result<()>)
    requires ctx.Valid()
    modifies ctx
    ensures Outcome(ctx.Snapshot(), r) == UpdatePatientSpec(old(ctx.Snapshot()), id, m)
    ensures ctx.Valid()
  {
    var saved := ctx.Snapshot();
    if !NombreValid(m.fields.nombre) {
      r := Fail(BadRequest);
    } else {
      var found := PatientIndex(ctx.pacientes, id);
      if found.None? {
        r := Fail(NotFound);
      } else {
        var i := found.value;
        var p := ctx.pacientes[i];
        p := p.(nombre := m.fields.nombre, apellidoPaterno := m.fields.apellidoPaterno,
                apellidoMaterno := m.fields.apellidoMaterno, telefono := m.fields.telefono,
                email := m.fields.email, direccion := m.fields.direccion,
                fechaNacimiento := m.fields.fechaNacimiento, ocupacion := m.fields.ocupacion,
                notas := m.fields.notas);
        if m.fields.fechaRegistro.Some? {
          var dt := m.fields.fechaRegistro.value;
          if dt.kind == Unspecified {
            dt := dt.(kind := Utc);
          }
          p := p.(fechaRegistro := dt);
        }
        p := p.(estaActivo := m.estaActivo);
        assert p == ApplyUpdate(saved.pacientes[i], m);
        ctx.pacientes := ctx.pacientes[i := p];
        ghost var t' := saved.(pacientes := saved.pacientes[i := p]);
        assert ctx.Snapshot() == t';
        var ok := ctx.SaveChanges();
        if !ok {
          ctx.Restore(saved);
          r := Fail(ServerError);
        } else {
          ReplacePatientKeepsConstraints(saved, i, p);
          r := Ok(());
        }
      }
    }
  }

  // ------------------------------------------------------------------ delete

  predicate PatientReferenced(t: Tables, id: Guid)
  {
    || (exists c :: c in t.consultas && c.pacienteId == id)
    || (exists d :: d in t.detalleVentas && d.pacienteId == Some(id))
  }

  function DeletePatientSpec(t: Tables, id: Guid): Outcome<()>
  {
    match PatientIndex(t.pacientes, id)
    case None => Outcome(t, Fail(NotFound))
    case Some(i) =>
      var t' := t.(pacientes := RemoveAt(t.pacientes, i));
      if DbConstraints(t') then Outcome(t', Ok(())) else Outcome(t, Fail(ServerError))
  }

  /** Removing the row at i from rows with unique keys drops exactly its
      key and keeps the others unique. */
  lemma RemovePatientRow(s: seq<Patient>, i: nat)
    requires UniquePatientIds(s) && i < |s|
    ensures var s' := RemoveAt(s, i);
            && (set p | p in s' :: p.id) == (set p | p in s :: p.id) - {s[i].id}
            && UniquePatientIds(s')
            && (forall p | p in s' :: p in s)
  {
    RemainingRows(s, i);
    OtherRowsKept(s, i);
    KeptIds(s, RemoveAt(s, i), s[i].id);
    RemainingIdsUnique(s, i);
  }

  /** The keys left when the rows kept are exactly those without key id. */
  lemma KeptIds(s: seq<Patient>, s': seq<Patient>, id: Guid)
    requires forall x | x in s' :: x in s && x.id != id
    requires forall x | x in s && x.id != id :: x in s'
    ensures (set p | p in s' :: p.id) == (set p | p in s :: p.id) - {id}
  {
    var before := set p | p in s :: p.id;
    var after := set p | p in s' :: p.id;
    forall v | v in after ensures v in before - {id} {
      var x :| x in s' && x.id == v;
    }
    forall v | v in before - {id} ensures v in after {
      var x :| x in s && x.id == v;
    }
  }

  lemma RemainingRows(s: seq<Patient>, i: nat)
    requires UniquePatientIds(s) && i < |s|
    ensures forall x | x in RemoveAt(s, i) :: x in s && x.id != s[i].id
  {
    var s' := RemoveAt(s, i);
    forall x | x in s' ensures x in s && x.id != s[i].id {
      var k :| 0 <= k < |s'| && s'[k] == x;
      var k0 := if k < i then k else k + 1;
      assert s[k0] == x;
    }
  }

  lemma OtherRowsKept(s: seq<Patient>, i: nat)
    requires i < |s|
    ensures forall x | x in s && x.id != s[i].id :: x in RemoveAt(s, i)
  {
    var s' := RemoveAt(s, i);
    forall x | x in s && x.id != s[i].id ensures x in s' {
      var k :| 0 <= k < |s| && s[k] == x;
      var k1 := if k < i then k else k - 1;
      assert s'[k1] == x;
    }
  }

  lemma RemainingIdsUnique(s: seq<Patient>, i: nat)
    requires UniquePatientIds(s) && i < |s|
    ensures UniquePatientIds(RemoveAt(s, i))
  {
    var s' := RemoveAt(s, i);
    forall a, b | 0 <= a < b < |s'| ensures s'[a].id != s'[b].id {
      var a0 := if a < i then a else a + 1;
      var b0 := if b < i then b else b + 1;
      assert s'[a] == s[a0] && s'[b] == s[b0];
    }
  }

  /** Deleting a stored patient succeeds exactly when no consultation and
      no sale line refers to it; otherwise nothing changes. */
  lemma DeletePatientOkIffUnreferenced(t: Tables, id: Guid)
    requires Consistent(t)
    requires exists k :: 0 <= k < |t.pacientes| && t.pacientes[k].id == id
    ensures var o := DeletePatientSpec(t, id);
            && (o.result == Ok(()) <==> !PatientReferenced(t, id))
            && (o.result.Fail? ==> o.tables == t && o.result == Fail(ServerError))
            && (o.result.Ok? ==> id !in PatientIds(o.tables) && Consistent(o.tables))
  {
    var i := PatientIndex(t.pacientes, id).value;
    var t' := t.(pacientes := RemoveAt(t.pacientes, i));
    RemovePatientRow(t.pacientes, i);
    assert PatientIds(t') == PatientIds(t) - {id};
    if PatientReferenced(t, id) {
      if exists c :: c in t.consultas && c.pacienteId == id {
        var c :| c in t.consultas && c.pacienteId == id;
        assert !ConsultationOk(t', c);
      } else {
        var d :| d in t.detalleVentas && d.pacienteId == Some(id);
        assert !SaleDetailOk(t', d);
      }
    } else {
      forall c | c in t'.consultas ensures ConsultationOk(t', c) {
        assert ConsultationOk(t, c);
      }
      forall d | d in t'.detalleVentas ensures SaleDetailOk(t', d) {
        assert SaleDetailOk(t, d);
      }
      assert KeysUnique(t');
      assert IdsBelow(t');
    }
  }

  method DeletePatient(ctx: ApplicationDbContext, id: Guid) returns (r: Result<()>)
    requires ctx.Valid()
    modifies ctx
    ensures Outcome(ctx.Snapshot(), r) == DeletePatientSpec(old(ctx.Snapshot()), id)
    ensures ctx.Valid()
  {
    var found := PatientIndex(ctx.pacientes, id);
    if found.None? {
      return Fail(NotFound);
    }
    var saved := ctx.Snapshot();
    ctx.pacientes := RemoveAt(ctx.pacientes, found.value);
    var ok := ctx.SaveChanges();
    if !ok {
      ctx.Restore(saved);
      return Fail(ServerError);
    }
    DeletePatientOkIffUnreferenced(saved, id);
    r := Ok(());
  }
}
