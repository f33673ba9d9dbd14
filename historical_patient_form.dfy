/** The patient step of the historical-capture wizard. The form creates a
    patient after a duplicate check, or lets the user pick one of the
    duplicates found; picking one registered after the form's date moves
    its registration back to that date. The replies of the server and the
    network are parameters; the parent's callback is the selection
    returned. */
module HistoricalPatientForm {
  import opened Common
  import opened Dates
  import opened Entities
  import opened PatientFormFields

  /** What the parent receives: the patient and the registration date on
      the form. */
  datatype Selection = Selection(patient: PatientDto, fechaRegistro: string)

  /** The requests the form sends, in order. */
  datatype Request = CheckRequest(body: PatientPayload) | CreateRequest(body: PatientPayload)
                   | PutRequest(id: Guid, update: UpdatePatientDto)

  /** The duplicate check's outcome: a reply that is not OK, a list (null
      reads as empty), or a fetch that throws with a message. */
  datatype CheckReply = CheckNotOk | CheckFound(list: seq<PatientDto>) | CheckThrows(message: string)

  datatype CreateReply = Created(patient: PatientDto) | CreateNotOk | CreateThrows(message: string)

  /** The PUT's fetch either settles (whatever the status) or throws. */
  datatype PutReply = PutSettled | PutThrows

  const SaveError: string := "Error al guardar paciente"
  const UnknownError: string := "Error desconocido"
  const ExistingError: string := "Error al procesar paciente existente"

  /** `err.message || "Error desconocido"`. */
  function ErrorText(message: string): (r: string)
    ensures r != ""
    ensures message != "" ==> r == message
  {
    if message == "" then UnknownError else message
  }

  /** The duplicate check ran and ended the submission: a non-empty list
      to show, or a thrown error. */
  predicate StopsAtCheck(forceCreate: bool, check: CheckReply)
  {
    !forceCreate && ((check.CheckFound? && |check.list| > 0) || check.CheckThrows?)
  }

  /** The error a creation leaves. */
  function CreateError(create: CreateReply): (r: Option<string>)
    ensures r.None? <==> create.Created?
  {
    match create
    case Created(_) => None
    case CreateNotOk => Some(SaveError)
    case CreateThrows(m) => Some(ErrorText(m))
  }

  class PatientStep {
    var formData: FormData
    var loading: bool
    var error: Option<string>
    var duplicates: Option<seq<PatientDto>>

    /** A blank form registered today. */
    constructor (today: Date)
      requires ValidDate(today)
      ensures formData == EmptyForm(IsoDateText(today))
      ensures !loading && error.None? && duplicates.None?
    {
      formData := EmptyForm(IsoDateText(today));
      loading := false;
      error := None;
      duplicates := None;
    }

    method HandleChange(c: Change, today: Date)
      requires ValidDate(today)
      modifies this`formData
      ensures formData == Changed(old(formData), c, today)
    {
      formData := Changed(formData, c, today);
    }

    /** handleSubmit: the duplicate check unless creation is forced; a
        non-empty list is shown and nothing is created; otherwise (a check
        that is not OK included) the patient is created and handed to the
        parent. The busy flag is cleared at the end only when no duplicates
        were shown as the submission began, so a forced creation that fails
        leaves the form busy. */
    method HandleSubmit(forceCreate: bool, check: CheckReply, create: CreateReply)
      returns (requests: seq<Request>, selected: Option<Selection>)
      modifies this`loading, this`error, this`duplicates
      ensures var body := PayloadOf(formData);
              requests == (if forceCreate then [] else [CheckRequest(body)])
                          + (if StopsAtCheck(forceCreate, check) then [] else [CreateRequest(body)])
      ensures selected.Some? <==> !StopsAtCheck(forceCreate, check) && create.Created?
      ensures selected.Some? ==> selected.value == Selection(create.patient, formData.fechaRegistro)
      ensures duplicates == (if !forceCreate && check.CheckFound? && |check.list| > 0 then Some(check.list)
                             else old(duplicates))
      ensures error == (if !forceCreate && check.CheckThrows? then Some(ErrorText(check.message))
                        else if StopsAtCheck(forceCreate, check) then None
                        else CreateError(create))
      ensures loading == (old(duplicates).Some? && !(!forceCreate && check.CheckFound? && |check.list| > 0))
    {
      var shownAtStart := duplicates;
      loading := true;
      error := None;
      selected := None;
      var body := PayloadOf(formData);
      requests := [];
      var stopped := false;
      if !forceCreate {
        requests := requests + [CheckRequest(body)];
        match check {
          case CheckThrows(m) =>
            error := Some(ErrorText(m));
            stopped := true;
          case CheckFound(list) =>
            if |list| > 0 {
              duplicates := Some(list);
              loading := false;
              stopped := true;
            }
          case CheckNotOk =>
        }
      }
      if !stopped {
        requests := requests + [CreateRequest(body)];
        match create {
          case Created(p) =>
            selected := Some(Selection(p, formData.fechaRegistro));
          case CreateNotOk =>
            error := Some(SaveError);
          case CreateThrows(m) =>
            error := Some(ErrorText(m));
        }
      }
      if shownAtStart.None? {
        loading := false;
      }
    }

    /** handleUseExisting: the back-dating update is sent only when the
        form's date is strictly before the patient's registration; the
        patient goes to the parent unless that request throws; the form
        ends idle with the duplicates closed. */
    method HandleUseExisting(existing: PatientDto, put: PutReply)
      returns (requests: seq<Request>, selected: Option<Selection>)
      modifies this`loading, this`error, this`duplicates
      ensures BackDates(formData.fechaRegistro, existing)
              ==> requests == [PutRequest(existing.id, BackDateUpdate(existing, ParseIsoDate(formData.fechaRegistro).value))]
      ensures !BackDates(formData.fechaRegistro, existing) ==> requests == []
      ensures selected.None? <==> requests != [] && put == PutThrows
      ensures selected.Some? ==> selected.value == Selection(existing, formData.fechaRegistro)
      ensures error == (if selected.None? then Some(ExistingError) else old(error))
      ensures !loading && duplicates.None?
    {
      loading := true;
      requests := [];
      selected := None;
      var thrown := false;
      if BackDates(formData.fechaRegistro, existing) {
        var d := ParseIsoDate(formData.fechaRegistro).value;
        requests := [PutRequest(existing.id, BackDateUpdate(existing, d))];
        thrown := put == PutThrows;
      }
      if thrown {
        error := Some(ExistingError);
      } else {
        selected := Some(Selection(existing, formData.fechaRegistro));
      }
      loading := false;
      duplicates := None;
    }

    /** The Cancel button of the duplicates panel. */
    method CancelDuplicates()
      modifies this`duplicates
      ensures duplicates.None?
    {
      duplicates := None;
    }
  }
}
