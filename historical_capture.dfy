/** The shared state of the historical-capture wizard: the step shown, what
    the earlier steps saved, the busy, error and success indicators, and
    the forms of the consultation, graduation and sale steps with the
    payments typed so far. */
module HistoricalCapture {
  import opened Common

  /** A record an earlier step saved (patient, consultation, graduation or
      sale), as far as the wizard looks at it: its id, None when the object
      has no id. */
  datatype Saved = Saved(id: Option<string>)

  /** capturedData: each slot null (None) until its step has saved. */
  datatype CapturedData = CapturedData(patient: Option<Saved>, consultation: Option<Saved>,
                                       graduation: Option<Saved>, sale: Option<Saved>)

  const NothingCaptured: CapturedData := CapturedData(None, None, None, None)

  datatype ConsultationForm = ConsultationForm(fecha: string, motivo: string)

  const HistoricalNote: string := "Nota Histórica"
  const Cash: string := "Efectivo"

  /** A payment of step 4 once it is in the list: the id it was given, the
      amount read from the text typed, and the date and method typed. */
  datatype PaymentEntry = PaymentEntry(id: int, monto: real, fecha: string, metodo: string)

  const GraduationFields: seq<string> :=
    ["od_esfera", "od_cilindro", "od_eje", "od_adicion",
     "oi_esfera", "oi_cilindro", "oi_eje", "oi_adicion", "dp"]

  /** Every graduation field empty. */
  function BlankGraduationForm(): (r: map<string, string>)
    ensures forall k :: k in r <==> k in GraduationFields
    ensures forall k | k in r :: r[k] == ""
  {
    map k | k in GraduationFields :: ""
  }

  /** The sale form the wizard starts with, the seller slot included. */
  function InitialSaleForm(): (r: map<string, string>)
    ensures r.Keys == {"folio_fisico", "total_venta", "anticipo_monto", "metodo_pago", "observaciones", "usuarioId"}
  {
    map["folio_fisico" := "", "total_venta" := "", "anticipo_monto" := "",
        "metodo_pago" := Cash, "observaciones" := "", "usuarioId" := ""]
  }

  /** The sale form resetFlow puts back: the same fields without the seller
      slot. */
  function ResetSaleForm(): (r: map<string, string>)
    ensures r == InitialSaleForm() - {"usuarioId"}
  {
    map["folio_fisico" := "", "total_venta" := "", "anticipo_monto" := "",
        "metodo_pago" := Cash, "observaciones" := ""]
  }

  /** nextStep. */
  function NextStepOf(p: int): int
  {
    p + 1
  }

  /** prevStep: one back, but never before the first step. */
  function PrevStepOf(p: int): (r: int)
    ensures r >= 1
    ensures p > 1 ==> r == p - 1
    ensures p <= 1 ==> r == 1
  {
    if p - 1 < 1 then 1 else p - 1
  }

  /** Going forward and back returns to the step one was on. */
  lemma PrevUndoesNext(p: int)
    requires p >= 1
    ensures PrevStepOf(NextStepOf(p)) == p
  {
  }

  /** Going back n times from any step up to n + 1 lands on the first
      step. */
  lemma {:induction false} BackToFirst(p: int, n: nat)
    requires 1 <= p <= n + 1
    ensures PrevTimes(p, n) == 1
  {
    if n > 0 {
      BackToFirst(PrevStepOf(p), n - 1);
    }
  }

  /** The step after going back n times. */
  function PrevTimes(p: int, n: nat): int
    decreases n
  {
    if n == 0 then p else PrevTimes(PrevStepOf(p), n - 1)
  }

  class Capture {
    var currentStep: int
    var capturedData: CapturedData
    var loading: bool
    var error: Option<string>
    var successMessage: Option<string>
    var consultationForm: ConsultationForm
    var graduationForm: map<string, string>
    var saleForm: map<string, string>
    var paymentList: seq<PaymentEntry>

    /** The step is one of the wizard's, and the sale form keeps the fields
        the sale step reads. */
    predicate Valid()
      reads this
    {
      currentStep >= 1 && "observaciones" in saleForm && "folio_fisico" in saleForm && "total_venta" in saleForm
    }

    /** The provider's initial state; today is the date part of the
        current ISO timestamp. */
    constructor (today: string)
      ensures currentStep == 1 && capturedData == NothingCaptured
      ensures !loading && error.None? && successMessage.None?
      ensures consultationForm == ConsultationForm(today, HistoricalNote)
      ensures graduationForm == BlankGraduationForm()
      ensures saleForm == InitialSaleForm() && paymentList == []
      ensures Valid()
    {
      currentStep := 1;
      capturedData := NothingCaptured;
      loading := false;
      error := None;
      successMessage := None;
      consultationForm := ConsultationForm(today, HistoricalNote);
      graduationForm := BlankGraduationForm();
      saleForm := InitialSaleForm();
      paymentList := [];
    }

    method NextStep()
      requires Valid()
      modifies this`currentStep
      ensures currentStep == NextStepOf(old(currentStep)) && Valid()
    {
      currentStep := currentStep + 1;
    }

    method PrevStep()
      requires Valid()
      modifies this`currentStep
      ensures currentStep == PrevStepOf(old(currentStep)) && Valid()
    {
      currentStep := if currentStep - 1 < 1 then 1 else currentStep - 1;
    }

    /** resetFlow: back to the first step with nothing captured, nothing
        pending and blank forms; the sale form comes back without its
        seller slot. */
    method ResetFlow(today: string)
      modifies this
      ensures currentStep == 1 && capturedData == NothingCaptured
      ensures !loading && error.None? && successMessage.None?
      ensures consultationForm == ConsultationForm(today, HistoricalNote)
      ensures graduationForm == BlankGraduationForm()
      ensures saleForm == ResetSaleForm() && paymentList == []
      ensures Valid()
    {
      currentStep := 1;
      capturedData := NothingCaptured;
      loading := false;
      error := None;
      successMessage := None;
      consultationForm := ConsultationForm(today, HistoricalNote);
      graduationForm := BlankGraduationForm();
      saleForm := ResetSaleForm();
      paymentList := [];
    }
  }
}
