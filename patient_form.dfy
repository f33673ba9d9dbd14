/** The patient dialog of the patients page: it creates a patient (after a
    duplicate check) or saves the one being edited, and from the duplicates
    found lets the user pick an existing patient, moving its registration
    back to the form's date when that date is earlier. The requests go
    through the API client, which throws on any reply that is not OK; the
    replies are parameters, and the callbacks are the flags returned. */
module PatientForm {
  import opened Common
  import opened Dates
  import opened Entities
  import opened PatientFormFields

  datatype Request = CheckRequest(body: PatientPayload) | CreateRequest(body: PatientPayload)
                   | UpdateRequest(id: Guid, body: PatientPayload)
                   | BackDateRequest(id: Guid, update: UpdatePatientDto)

  /** The duplicate check returns a list (null reads as empty) or throws. */
  datatype CheckReply = Found(list: seq<PatientDto>) | CheckThrows(message: string)

  /** A create or update call returns or throws. */
  datatype SaveReply = Saved | SaveThrows(message: string)

  /** The check runs only when a new patient is created without forcing. */
  predicate ChecksDuplicates(editing: Option<PatientDto>, forceCreate: bool)
  {
    editing.None? && !forceCreate
  }

  predicate StopsAtCheck(editing: Option<PatientDto>, forceCreate: bool, check: CheckReply)
  {
    ChecksDuplicates(editing, forceCreate) && ((check.Found? && |check.list| > 0) || check.CheckThrows?)
  }

  class PatientDialog {
    /** The patient being edited, None when creating. */
    const patient: Option<PatientDto>
    var formData: FormData
    var loading: bool
    var error: Option<string>
    var duplicates: Option<seq<PatientDto>>

    /** The dialog with its form as first filled in. */
    constructor (patient: Option<PatientDto>, initial: FormData)
      ensures this.patient == patient && formData == initial
      ensures !loading && error.None? && duplicates.None?
    {
      this.patient := patient;
      formData := initial;
      loading := false;
      error := None;
      duplicates := None;
    }

    method HandleChange(c: Change, today: Date)
      requires ValidDate(today)
      modifies this`formData
      ensures formData == Changed(old(formData), c, today)
    {
      formData := Changed(formData, c, today);
    }

    /** handleSubmit: a new patient is checked for duplicates unless
        creation is forced, and a non-empty list stops the submission to
        be shown; then the edited patient is updated, or a new one
        created, and on success the dialog reports and closes. As in the
        historical form, a forced creation that fails leaves the dialog
        busy. */
    method HandleSubmit(forceCreate: bool, check: CheckReply, save: SaveReply)
      returns (requests: seq<Request>, closed: bool)
      modifies this`loading, this`error, this`duplicates
      ensures var body := PayloadOf(formData);
              requests == (if ChecksDuplicates(patient, forceCreate) then [CheckRequest(body)] else [])
                          + (if StopsAtCheck(patient, forceCreate, check) then []
                             else if patient.Some? then [UpdateRequest(patient.value.id, body)]
                             else [CreateRequest(body)])
      ensures closed <==> !StopsAtCheck(patient, forceCreate, check) && save == Saved
      ensures var found := ChecksDuplicates(patient, forceCreate) && check.Found? && |check.list| > 0;
              duplicates == (if found then Some(check.list) else old(duplicates))
              && loading == (old(duplicates).Some? && !found)
      ensures error == (if ChecksDuplicates(patient, forceCreate) && check.CheckThrows? then Some(check.message)
                        else if StopsAtCheck(patient, forceCreate, check) || save == Saved then None
                        else Some(save.message))
    {
      var shownAtStart := duplicates;
      loading := true;
      error := None;
      closed := false;
      var body := PayloadOf(formData);
      requests := [];
      var stopped := false;
      if patient.None? && !forceCreate {
        requests := [CheckRequest(body)];
        match check {
          case CheckThrows(m) =>
            error := Some(m);
            stopped := true;
          case Found(list) =>
            if |list| > 0 {
              duplicates := Some(list);
              loading := false;
              stopped := true;
            }
        }
      }
      if !stopped {
        if patient.Some? {
          requests := requests + [UpdateRequest(patient.value.id, body)];
        } else {
          requests := requests + [CreateRequest(body)];
        }
        match save {
          case Saved =>
            closed := true;
          case SaveThrows(m) =>
            error := Some(m);
        }
      }
      if shownAtStart.None? {
        loading := false;
      }
    }

    /** handleUseExisting: the back-dating update only for a form date
        strictly before the patient's registration; the lists are refreshed
        when it succeeds; a failure is swallowed; the dialog always
        closes. */
    method HandleUseExisting(existing: PatientDto, update: SaveReply)
      returns (requests: seq<Request>, refreshed: bool, closed: bool)
      ensures BackDates(formData.fechaRegistro, existing)
              ==> requests == [BackDateRequest(existing.id,
                                               BackDateUpdate(existing, ParseIsoDate(formData.fechaRegistro).value))]
      ensures !BackDates(formData.fechaRegistro, existing) ==> requests == []
      ensures refreshed <==> requests != [] && update == Saved
      ensures closed
    {
      requests := [];
      refreshed := false;
      if BackDates(formData.fechaRegistro, existing) {
        var d := ParseIsoDate(formData.fechaRegistro).value;
        requests := [BackDateRequest(existing.id, BackDateUpdate(existing, d))];
        refreshed := update == Saved;
      }
      closed := true;
    }

    /** The close and back buttons of the duplicates view. */
    method CloseDuplicates()
      modifies this`duplicates
      ensures duplicates.None?
    {
      duplicates := None;
    }
  }
}
