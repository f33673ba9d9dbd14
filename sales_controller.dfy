/** The sales endpoints. The controller repeats the service's capture code
    (same rows, same order of saves, same rollback) and answers 500 where
    the service rethrows; it also totals the initial payments, a value the
    action computes and then does not use. */
module SalesController {
  import opened Common
  import opened Dates
  import opened Entities
  import opened Data
  import Service = SalesService

  // ----------------------------------------------------------------- create

  /** CreateSale: the service's capture, with a refused save answered as a
      server error instead of an exception. */
  function CreateSaleSpec(t: Tables, m: CreateSaleDto, now: DateTime): Outcome<Sale>
  {
    var c := Service.Capture(t, m, now);
    if c.result.Ok? then c else Outcome(t, Fail(ServerError))
  }

  /** The sum of the requested initial payments. */
  function Paid(ps: seq<CreatePaymentDto>): real
  {
    if ps == [] then 0.0 else Paid(ps[..|ps| - 1]) + ps[|ps| - 1].monto
  }

  /** The sum of stored payment amounts. */
  function StoredPaid(rows: seq<Payment>): real
  {
    if rows == [] then 0.0 else StoredPaid(rows[..|rows| - 1]) + rows[|rows| - 1].monto
  }

  /** The payment loop of the action: the same rows as the service's, and
      the running total of the amounts. */
  method AddPaymentsTotaling(ctx: ApplicationDbContext, m: CreateSaleDto, saleId: Guid, now: DateTime)
    returns (totalPagado: real)
    modifies ctx
    ensures ctx.Snapshot() == Service.AppendPayments(old(ctx.Snapshot()), m, saleId, now)
    ensures totalPagado == Paid(m.abonosIniciales)
  {
    ghost var t0 := ctx.Snapshot();
    var ps := m.abonosIniciales;
    totalPagado := 0.0;
    var j := 0;
    while j < |ps|
      invariant 0 <= j <= |ps|
      invariant ctx.Snapshot() == t0.(abonos := ctx.abonos, nextId := ctx.nextId)
      invariant ctx.abonos == t0.abonos + Service.PaymentRows(ps[..j], m, saleId, t0.nextId, now)
      invariant ctx.nextId == t0.nextId + j
      invariant totalPagado == Paid(ps[..j])
    {
      var pay := ps[j];
      Service.AddPayment(ctx, pay, m, saleId, now);
      Service.PaymentRowsSnoc(t0.abonos, ps, j, m, saleId, t0.nextId, now);
      PaidSnoc(ps, j);
      totalPagado := totalPagado + pay.monto;
      j := j + 1;
    }
    assert ps[..j] == ps;
  }

  lemma PaidSnoc(ps: seq<CreatePaymentDto>, j: nat)
    requires j < |ps|
    ensures Paid(ps[..j + 1]) == Paid(ps[..j]) + ps[j].monto
  {
    assert ps[..j + 1][..j] == ps[..j];
  }

  method CreateSale(ctx: ApplicationDbContext, m: CreateSaleDto, now: DateTime)
    returns (r: Result<Sale>, totalPagado: real)
    requires ctx.Valid()
    modifies ctx
    ensures Outcome(ctx.Snapshot(), r) == CreateSaleSpec(old(ctx.Snapshot()), m, now)
    ensures r.Ok? ==> totalPagado == Paid(m.abonosIniciales)
    ensures ctx.Valid()
  {
    var saved := ctx.Snapshot();
    totalPagado := 0.0;
    var sale := Service.NewSaleHeader(ctx, m, now);
    var ok := ctx.SaveChanges();
    if !ok {
      ctx.Restore(saved);
      return Fail(ServerError), totalPagado;
    }
    Service.AddLines(ctx, m.detalles, sale.id);
    totalPagado := AddPaymentsTotaling(ctx, m, sale.id, now);
    Service.WithLinesInSteps(saved, m, now);
    assert ctx.Snapshot() == Service.WithLines(saved, m, now);
    ok := ctx.SaveChanges();
    if !ok {
      ctx.Restore(saved);
      return Fail(ServerError), totalPagado;
    }
    Service.CaptureIdsBelow(saved, m, now);
    r := Ok(sale);
  }

  /** The action succeeds exactly when every reference the new rows make
      resolves and every bounded text fits; otherwise nothing is stored and
      the answer is a server error. */
  lemma CreateSaleSucceedsIff(t: Tables, m: CreateSaleDto, now: DateTime)
    requires Consistent(t)
    ensures var o := CreateSaleSpec(t, m, now);
            && (o.result.Ok? <==> Service.CaptureRefsOk(t, m))
            && (o.result.Fail? ==> o.tables == t && o.result.failure == ServerError)
            && Consistent(o.tables)
  {
    Service.CaptureSucceedsIff(t, m, now);
  }

  /** The total the action accumulates is what the stored payments of the
      new sale add up to. */
  lemma {:induction false} StoredPaymentsTotal(ps: seq<CreatePaymentDto>, m: CreateSaleDto, ventaId: Guid,
                                               firstId: Guid, now: DateTime)
    ensures StoredPaid(Service.PaymentRows(ps, m, ventaId, firstId, now)) == Paid(ps)
  {
    if ps != [] {
      var n := |ps| - 1;
      var rows := Service.PaymentRows(ps, m, ventaId, firstId, now);
      StoredPaymentsTotal(ps[..n], m, ventaId, firstId, now);
      assert rows[..n] == Service.PaymentRows(ps[..n], m, ventaId, firstId, now);
    }
  }

  /** Reading the sale back after a successful create gives its header and
      exactly the lines and payments of the request, in order. */
  lemma GetSaleAfterCreate(t: Tables, m: CreateSaleDto, now: DateTime)
    requires Consistent(t) && CreateSaleSpec(t, m, now).result.Ok?
    ensures var o := CreateSaleSpec(t, m, now);
            var id := t.nextId;
            GetSale(o.tables, id)
              == Ok(Service.SaleView(o.result.value, Service.DetailRows(m.detalles, id, id + 1),
                                     Service.PaymentRows(m.abonosIniciales, m, id, id + 1 + |m.detalles|, now)))
  {
    var c := Service.Capture(t, m, now);
    assert CreateSaleSpec(t, m, now) == c;
    Service.GetSaleAfterCapture(t, m, now);
  }

  // ----------------------------------------------------------------- reads

  predicate ConsultationOfPatient(t: Tables, s: Sale, patientId: Guid)
  {
    s.consultaId.Some? && exists c :: c in t.consultas && c.id == s.consultaId.value && c.pacienteId == patientId
  }

  predicate LineOfPatient(t: Tables, s: Sale, patientId: Guid)
  {
    exists d :: d in t.detalleVentas && d.ventaId == s.id && d.pacienteId == Some(patientId)
  }

  /** The first Where: a line for the patient, or the consultation's patient. */
  function LinesFirst(t: Tables, patientId: Guid): Sale -> bool
  {
    (s: Sale) => LineOfPatient(t, s, patientId) || ConsultationOfPatient(t, s, patientId)
  }

  /** The second Where: the same two tests in the other order. */
  function ConsultationFirst(t: Tables, patientId: Guid): Sale -> bool
  {
    (s: Sale) => ConsultationOfPatient(t, s, patientId) || LineOfPatient(t, s, patientId)
  }

  /** GetSalesByPatient: both filters, latest first, lines and payments
      loaded. */
  function GetSalesByPatient(t: Tables, patientId: Guid): seq<Service.SaleView>
  {
    var linked := Filter(Filter(t.ventas, LinesFirst(t, patientId)), ConsultationFirst(t, patientId));
    Map(SortBy(linked, Service.LaterOrSame), Service.ViewOf(t))
  }

  /** The second filter adds nothing: the action answers exactly what the
      service's query answers. */
  lemma GetSalesByPatientIsService(t: Tables, patientId: Guid)
    ensures GetSalesByPatient(t, patientId) == Service.GetSalesByPatient(t, patientId)
  {
    var first := LinesFirst(t, patientId);
    FilterAgain(t.ventas, first, ConsultationFirst(t, patientId));
    FilterSameOn(t.ventas, first, Service.IsLinkedTo(t, patientId));
  }

  /** GetSale: the sale with its lines and payments, or 404. */
  function GetSale(t: Tables, id: Guid): (r: Result<Service.SaleView>)
    ensures r.Fail? <==> forall s | s in t.ventas :: s.id != id
    ensures r.Fail? ==> r.failure == NotFound
    ensures r.Ok? ==> r.value.sale in t.ventas && r.value.sale.id == id
                      && r.value.detalles == Service.LinesOf(t, id) && r.value.abonos == Service.PaymentsOf(t, id)
  {
    match Service.GetSaleById(t, id)
    case None => Fail(NotFound)
    case Some(v) => Ok(v)
  }
}
