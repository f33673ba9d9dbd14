/** The sale step of the historical capture: the list of payments typed
    for the old note, the product keywords added to its notes, and the sale
    sent to the backend with one detail for the complete glasses and one
    payment per list entry. */
module Step4Sale {
  import opened Common
  import opened JsNumbers
  import opened HistoricalCapture

  /** The payment being typed, as text. */
  datatype PaymentDraft = PaymentDraft(monto: string, fecha: string, metodo: string)

  datatype PaymentField = Monto | Fecha | Metodo

  const CompleteGlasses: string := "Captura Histórica - Lentes Completos"
  const MissingDataMessage: string :=
    "Faltan datos requeridos (Consulta, Graduación o Paciente). Por favor verifique los pasos anteriores."
  const SavedMessage: string := "¡Captura de Nota Histórica Completa!"
  const SaveErrorPrefix: string := "Error al guardar venta: "
  /** What the browser reports when `.id` is read from a null slot. */
  const NullIdMessage: string := "Cannot read properties of null (reading 'id')"

  // ------------------------------------------------------------ payments

  function Amount(): PaymentEntry -> real
  {
    (p: PaymentEntry) => p.monto
  }

  /** totalPagado: the sum of the amounts in the list. */
  function TotalPagado(list: seq<PaymentEntry>): real
  {
    Sum(Map(list, Amount()))
  }

  lemma TotalPagadoAppend(list: seq<PaymentEntry>, p: PaymentEntry)
    ensures TotalPagado(list + [p]) == TotalPagado(list) + p.monto
  {
    assert Map(list + [p], Amount()) == Map(list, Amount()) + [p.monto];
    SumAppend(Map(list, Amount()), [p.monto]);
    assert Sum([p.monto]) == Sum([]) + p.monto;
  }

  function OtherId(id: int): PaymentEntry -> bool
  {
    (p: PaymentEntry) => p.id != id
  }

  /** removePayment's list: the entries whose id differs, in order. */
  function WithoutPayment(list: seq<PaymentEntry>, id: int): (r: seq<PaymentEntry>)
    ensures forall p | p in r :: p.id != id
    ensures forall p | p in list && p.id != id :: p in r
  {
    Filter(list, OtherId(id))
  }

  /** Removing an id no entry has leaves the list as it was. */
  lemma RemoveMissingId(list: seq<PaymentEntry>, id: int)
    requires forall p | p in list :: p.id != id
    ensures WithoutPayment(list, id) == list
  {
    FilterAll(list, OtherId(id));
  }

  /** Removing the entry added last takes off exactly what adding it put
      on, when no earlier entry shares its id. */
  lemma RemoveUndoesAdd(list: seq<PaymentEntry>, p: PaymentEntry)
    requires forall q | q in list :: q.id != p.id
    ensures WithoutPayment(list + [p], p.id) == list
  {
    FilterAppend(list, [p], OtherId(p.id));
    FilterAll(list, OtherId(p.id));
  }

  /** The notes after a keyword is inserted: the old notes, a single space
      when they were not empty, then the keyword. */
  function WithKeyword(notes: string, keyword: string): (r: string)
    ensures |r| == |notes| + |keyword| + (if notes == "" then 0 else 1)
    ensures r[..|notes|] == notes && r[|r| - |keyword|..] == keyword
    ensures notes != "" ==> r[|notes|] == ' '
  {
    notes + (if notes != "" then " " else "") + keyword
  }

  // -------------------------------------------------------------- payload

  function Lookup(form: map<string, string>, key: string): Option<string>
  {
    if key in form then Some(form[key]) else None
  }

  /** A text that JavaScript counts as true: present and not empty. */
  predicate Truthy(s: Option<string>)
  {
    s.Some? && s.value != ""
  }

  /** `saleForm.usuarioId ? saleForm.usuarioId : null`. */
  function Seller(saleForm: map<string, string>): (r: Option<string>)
    ensures r.Some? <==> Truthy(Lookup(saleForm, "usuarioId"))
  {
    if Truthy(Lookup(saleForm, "usuarioId")) then Lookup(saleForm, "usuarioId") else None
  }

  /** `parseFloat(saleForm.total_venta) || 0`. */
  function SaleTotal(saleForm: map<string, string>): real
  {
    match Lookup(saleForm, "total_venta")
    case None => 0.0
    case Some(t) => OrZero(ParseFloat(t))
  }

  datatype DetailPayload = DetailPayload(pacienteId: string, graduacionId: string,
                                         descripcionManual: string, precioAplicado: real)

  datatype PaymentPayload = PaymentPayload(monto: real, fechaPago: string, metodoPago: string,
                                           usuarioId: Option<string>)

  /** The body posted to the sales endpoint; None for a field whose form
      slot is missing. */
  datatype SalePayload = SalePayload(folioFisico: Option<string>, fecha: string, consultaId: string,
                                     totalVenta: real, saldoPendiente: real,
                                     observacionesGenerales: Option<string>, usuarioId: Option<string>,
                                     detalles: seq<DetailPayload>, abonosIniciales: seq<PaymentPayload>)

  function PaymentPayloadOf(seller: Option<string>): PaymentEntry -> PaymentPayload
  {
    (p: PaymentEntry) => PaymentPayload(p.monto, p.fecha, p.metodo, seller)
  }

  function PayloadAmount(): PaymentPayload -> real
  {
    (p: PaymentPayload) => p.monto
  }

  predicate HasId(slot: Option<Saved>)
  {
    slot.Some? && Truthy(slot.value.id)
  }

  /** What handleSaveSale gets to: reading the id of an empty slot throws
      while the payload is built; a slot whose id is missing or empty stops
      it before the request; otherwise the payload is ready. */
  datatype Attempt = NullReference | MissingData | Ready(payload: SalePayload)

  function SaleAttempt(saleForm: map<string, string>, consultationForm: ConsultationForm,
                       captured: CapturedData, paymentList: seq<PaymentEntry>): (r: Attempt)
    ensures r == NullReference <==> captured.consultation.None? || captured.patient.None? || captured.graduation.None?
    ensures r.Ready? <==> HasId(captured.consultation) && HasId(captured.patient) && HasId(captured.graduation)
  {
    if captured.consultation.None? || captured.patient.None? || captured.graduation.None? then NullReference
    else if !(HasId(captured.consultation) && HasId(captured.graduation) && HasId(captured.patient)) then MissingData
    else
      var total := SaleTotal(saleForm);
      var seller := Seller(saleForm);
      var fechaVenta := Lookup(saleForm, "fecha_venta");
      Ready(SalePayload(
        Lookup(saleForm, "folio_fisico"),
        if Truthy(fechaVenta) then fechaVenta.value else consultationForm.fecha,
        captured.consultation.value.id.value,
        total,
        total - TotalPagado(paymentList),
        Lookup(saleForm, "observaciones"),
        seller,
        [DetailPayload(captured.patient.value.id.value, captured.graduation.value.id.value, CompleteGlasses, total)],
        Map(paymentList, PaymentPayloadOf(seller))))
  }

  /** The sale sent: what is still owed plus what the payments sent cover
      is the total; one detail, for the captured patient and graduation, at
      the total; one payment per list entry, in order, credited to the
      sale's seller; the sale's date is the one typed, or else the
      consultation's. */
  lemma SalePayloadShape(saleForm: map<string, string>, consultationForm: ConsultationForm,
                         captured: CapturedData, paymentList: seq<PaymentEntry>)
    requires SaleAttempt(saleForm, consultationForm, captured, paymentList).Ready?
    ensures var p := SaleAttempt(saleForm, consultationForm, captured, paymentList).payload;
            && p.totalVenta == SaleTotal(saleForm)
            && p.saldoPendiente + Sum(Map(p.abonosIniciales, PayloadAmount())) == p.totalVenta
            && |p.detalles| == 1 && p.detalles[0].precioAplicado == p.totalVenta
            && p.detalles[0].pacienteId == captured.patient.value.id.value
            && p.detalles[0].graduacionId == captured.graduation.value.id.value
            && p.consultaId == captured.consultation.value.id.value
            && |p.abonosIniciales| == |paymentList|
            && (forall i :: 0 <= i < |paymentList| ==>
                  p.abonosIniciales[i].monto == paymentList[i].monto
                  && p.abonosIniciales[i].fechaPago == paymentList[i].fecha
                  && p.abonosIniciales[i].metodoPago == paymentList[i].metodo
                  && p.abonosIniciales[i].usuarioId == p.usuarioId)
            && p.fecha == (if Truthy(Lookup(saleForm, "fecha_venta")) then saleForm["fecha_venta"] else consultationForm.fecha)
  {
    var p := SaleAttempt(saleForm, consultationForm, captured, paymentList).payload;
    assert Map(p.abonosIniciales, PayloadAmount()) == Map(paymentList, Amount());
  }

  /** A sale form without the seller slot (as resetFlow leaves it) sends
      the same as one whose seller is not chosen: no seller. */
  lemma ResetFormHasNoSeller()
    ensures Seller(ResetSaleForm()) == None
    ensures Seller(InitialSaleForm()) == None
    ensures "usuarioId" in InitialSaleForm() && "usuarioId" !in ResetSaleForm()
  {
    assert "usuarioId" !in ResetSaleForm();
  }

  /** The server's answer to the POST, or the failure of the request. */
  datatype Reply = Accepted | Rejected(errText: string) | NetworkFailure(message: string)

  // ---------------------------------------------------------- the step

  class SaleStep {
    const capture: Capture
    var currentPayment: PaymentDraft

    constructor (capture: Capture, today: string)
      ensures this.capture == capture && currentPayment == PaymentDraft("", today, Cash)
    {
      this.capture := capture;
      currentPayment := PaymentDraft("", today, Cash);
    }

    /** handlePaymentChange. */
    method HandlePaymentChange(field: PaymentField, value: string)
      modifies this`currentPayment
      ensures currentPayment == match field
                                case Monto => old(currentPayment).(monto := value)
                                case Fecha => old(currentPayment).(fecha := value)
                                case Metodo => old(currentPayment).(metodo := value)
    {
      match field
      case Monto => currentPayment := currentPayment.(monto := value);
      case Fecha => currentPayment := currentPayment.(fecha := value);
      case Metodo => currentPayment := currentPayment.(metodo := value);
    }

    /** addPayment: an amount parseFloat cannot read, or one not above
        zero, is ignored; otherwise one entry, stamped with now, goes at the
        end of the list and the amount field is cleared. */
    method AddPayment(now: int)
      modifies this`currentPayment, capture`paymentList
      ensures var m := ParseFloat(old(currentPayment.monto));
              if m.None? || m.value <= 0.0 then
                capture.paymentList == old(capture.paymentList) && currentPayment == old(currentPayment)
              else
                capture.paymentList == old(capture.paymentList)
                                       + [PaymentEntry(now, m.value, old(currentPayment.fecha), old(currentPayment.metodo))]
                && currentPayment == old(currentPayment).(monto := "")
                && TotalPagado(capture.paymentList) == TotalPagado(old(capture.paymentList)) + m.value
    {
      var monto := ParseFloat(currentPayment.monto);
      if monto.None? || monto.value <= 0.0 {
        return;
      }
      TotalPagadoAppend(capture.paymentList, PaymentEntry(now, monto.value, currentPayment.fecha, currentPayment.metodo));
      capture.paymentList := capture.paymentList
                             + [PaymentEntry(now, monto.value, currentPayment.fecha, currentPayment.metodo)];
      currentPayment := currentPayment.(monto := "");
    }

    /** removePayment. */
    method RemovePayment(id: int)
      modifies capture`paymentList
      ensures capture.paymentList == WithoutPayment(old(capture.paymentList), id)
    {
      capture.paymentList := WithoutPayment(capture.paymentList, id);
    }

    /** insertKeyword. */
    method InsertKeyword(keyword: string)
      requires capture.Valid()
      modifies capture`saleForm
      ensures capture.saleForm == old(capture.saleForm)["observaciones" := WithKeyword(old(capture.saleForm)["observaciones"], keyword)]
      ensures capture.Valid()
    {
      capture.saleForm := capture.saleForm["observaciones" := WithKeyword(capture.saleForm["observaciones"], keyword)];
    }

    /** handleSaleChange: one field of the sale form takes the value typed. */
    method HandleSaleChange(name: string, value: string)
      requires capture.Valid()
      modifies capture`saleForm
      ensures capture.saleForm == old(capture.saleForm)[name := value] && capture.Valid()
    {
      capture.saleForm := capture.saleForm[name := value];
    }

    /** handleSaveSale. The request is made only for a ready payload, and
        what it sent is returned; reply stands for the server's answer. The
        error is cleared first and set by any failure; the success message
        is set only on acceptance; the busy flag ends cleared. */
    method HandleSaveSale(reply: Reply) returns (sent: Option<SalePayload>)
      modifies capture`loading, capture`error, capture`successMessage
      ensures var a := SaleAttempt(capture.saleForm, capture.consultationForm, capture.capturedData, capture.paymentList);
              && (sent.Some? <==> a.Ready?)
              && (a.Ready? ==> sent.value == a.payload)
              && (a == NullReference ==> capture.error == Some(NullIdMessage))
              && (a == MissingData ==> capture.error == Some(MissingDataMessage))
              && (a.Ready? && reply.Rejected? ==> capture.error == Some(SaveErrorPrefix + reply.errText))
              && (a.Ready? && reply.NetworkFailure? ==> capture.error == Some(reply.message))
              && (a.Ready? && reply.Accepted? ==> capture.error.None? && capture.successMessage == Some(SavedMessage))
              && (!(a.Ready? && reply.Accepted?) ==> capture.successMessage == old(capture.successMessage))
      ensures !capture.loading
    {
      capture.loading := true;
      capture.error := None;
      sent := None;
      var attempt := SaleAttempt(capture.saleForm, capture.consultationForm, capture.capturedData, capture.paymentList);
      match attempt {
        case NullReference =>
          capture.error := Some(NullIdMessage);
        case MissingData =>
          capture.error := Some(MissingDataMessage);
        case Ready(payload) =>
          sent := Some(payload);
          match reply {
            case Accepted =>
              capture.successMessage := Some(SavedMessage);
            case Rejected(errText) =>
              capture.error := Some(SaveErrorPrefix + errText);
            case NetworkFailure(message) =>
              capture.error := Some(message);
          }
      }
      capture.loading := false;
    }
  }

  /** No request is made unless the patient, the consultation and the
      graduation all carry an id. */
  lemma NoPostWithoutIds(saleForm: map<string, string>, consultationForm: ConsultationForm,
                         captured: CapturedData, paymentList: seq<PaymentEntry>)
    requires !HasId(captured.patient) || !HasId(captured.consultation) || !HasId(captured.graduation)
    ensures !SaleAttempt(saleForm, consultationForm, captured, paymentList).Ready?
  {
  }
}
