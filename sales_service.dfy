/** SalesService: capturing a sale (header, lines and initial payments in
    one transaction) and the two sale queries. "Now" (DateTime.Now) is a
    parameter; the transaction either commits every row or leaves the
    tables as they were. */
module SalesService {
  import opened Common
  import opened Dates
  import opened Entities
  import opened Data

  /** !string.IsNullOrEmpty(s) ? s : null */
  function NonEmpty(s: Option<string>): (r: Option<string>)
    ensures r.Some? <==> !IsNullOrEmpty(s)
    ensures r.Some? ==> r == s && r.value != ""
  {
    if IsNullOrEmpty(s) then None else s
  }

  /** The header: status Activa, total and balance exactly as sent, the
      date (or now) with an unspecified kind relabelled UTC. */
  function SaleHeader(m: CreateSaleDto, id: Guid, now: DateTime): (r: Sale)
    ensures r.id == id && r.estado == Some(StatusActive) && r.motivoCancelacion.None?
    ensures r.totalVenta == m.totalVenta && r.saldoPendiente == m.saldoPendiente
    ensures r.folioFisico == m.folioFisico && r.consultaId == m.consultaId
    ensures r.fecha == SpecifyUtcIfUnspecified(if m.fecha.Some? then m.fecha.value else now)
    ensures r.usuarioId.Some? ==> r.usuarioId == m.usuarioId && r.usuarioId.value != ""
  {
    var fecha := if m.fecha.Some? then m.fecha.value else now;
    Sale(id, m.folioFisico, SpecifyUtcIfUnspecified(fecha), m.consultaId, m.totalVenta, m.saldoPendiente,
         Some(StatusActive), m.observacionesGenerales, None, NonEmpty(m.usuarioId))
  }

  function DetailRow(d: CreateSaleDetailDto, ventaId: Guid, id: Guid): SaleDetail
  {
    SaleDetail(id, ventaId, d.pacienteId, d.graduacionId, d.dpOd, d.dpOi, d.alturaOblea, d.catalogoId,
               d.descripcionManual, d.precioAplicado)
  }

  /** The staff id of a payment: its own when non-empty, else the sale's
      when non-empty, else none. */
  function PaymentUser(p: CreatePaymentDto, m: CreateSaleDto): (r: Option<UserId>)
    ensures r.Some? ==> r.value != "" && (r == p.usuarioId || r == m.usuarioId)
    ensures r.None? <==> IsNullOrEmpty(p.usuarioId) && IsNullOrEmpty(m.usuarioId)
    ensures !IsNullOrEmpty(p.usuarioId) ==> r == p.usuarioId
  {
    if !IsNullOrEmpty(p.usuarioId) then p.usuarioId else NonEmpty(m.usuarioId)
  }

  function PaymentRow(p: CreatePaymentDto, m: CreateSaleDto, ventaId: Guid, id: Guid, now: DateTime): Payment
  {
    var fecha := if p.fechaPago.Some? then p.fechaPago.value else now;
    Payment(id, Some(ventaId), p.monto, SpecifyUtcIfUnspecified(fecha), p.metodoPago, PaymentUser(p, m))
  }

  /** One line row per requested line, in order, with consecutive keys. */
  function DetailRows(ds: seq<CreateSaleDetailDto>, ventaId: Guid, firstId: Guid): (r: seq<SaleDetail>)
    ensures |r| == |ds|
    ensures forall i :: 0 <= i < |ds| ==> r[i] == DetailRow(ds[i], ventaId, firstId + i)
  {
    if ds == [] then []
    else DetailRows(ds[..|ds| - 1], ventaId, firstId) + [DetailRow(ds[|ds| - 1], ventaId, firstId + |ds| - 1)]
  }

  /** One payment row per initial payment, in order, with consecutive keys. */
  function PaymentRows(ps: seq<CreatePaymentDto>, m: CreateSaleDto, ventaId: Guid, firstId: Guid, now: DateTime)
    : (r: seq<Payment>)
    ensures |r| == |ps|
    ensures forall i :: 0 <= i < |ps| ==> r[i] == PaymentRow(ps[i], m, ventaId, firstId + i, now)
  {
    if ps == [] then []
    else PaymentRows(ps[..|ps| - 1], m, ventaId, firstId, now)
         + [PaymentRow(ps[|ps| - 1], m, ventaId, firstId + |ps| - 1, now)]
  }

  /** The tables after the header is added (before the first save). */
  function WithHeader(t: Tables, m: CreateSaleDto, now: DateTime): Tables
  {
    t.(ventas := t.ventas + [SaleHeader(m, t.nextId, now)], nextId := t.nextId + 1)
  }

  /** The tables after the lines and payments are added (before the second
      save). */
  function WithLines(t: Tables, m: CreateSaleDto, now: DateTime): Tables
  {
    var id := t.nextId;
    var firstPayment := id + 1 + |m.detalles|;
    t.(ventas := t.ventas + [SaleHeader(m, id, now)],
       detalleVentas := t.detalleVentas + DetailRows(m.detalles, id, id + 1),
       abonos := t.abonos + PaymentRows(m.abonosIniciales, m, id, firstPayment, now),
       nextId := firstPayment + |m.abonosIniciales|)
  }

  /** The lines of a sale appended to the line table, keys from the counter. */
  function AppendLines(t: Tables, ds: seq<CreateSaleDetailDto>, saleId: Guid): Tables
  {
    t.(detalleVentas := t.detalleVentas + DetailRows(ds, saleId, t.nextId), nextId := t.nextId + |ds|)
  }

  /** The initial payments of a sale appended to the payment table, keys
      from the counter. */
  function AppendPayments(t: Tables, m: CreateSaleDto, saleId: Guid, now: DateTime): Tables
  {
    t.(abonos := t.abonos + PaymentRows(m.abonosIniciales, m, saleId, t.nextId, now),
       nextId := t.nextId + |m.abonosIniciales|)
  }

  /** CreateSaleAsync: save the header, then the lines and payments; if
      either save is refused the transaction is rolled back and the
      exception rethrown. */
  function Capture(t: Tables, m: CreateSaleDto, now: DateTime): Outcome<Sale>
  {
    if !DbConstraints(WithHeader(t, m, now)) then Outcome(t, Fail(Thrown))
    else if !DbConstraints(WithLines(t, m, now)) then Outcome(t, Fail(Thrown))
    else Outcome(WithLines(t, m, now), Ok(SaleHeader(m, t.nextId, now)))
  }

  /** One more line, after the rows already in the table. */
  lemma DetailRowsSnoc(before: seq<SaleDetail>, ds: seq<CreateSaleDetailDto>, i: nat, ventaId: Guid, firstId: Guid)
    requires i < |ds|
    ensures before + DetailRows(ds[..i + 1], ventaId, firstId)
            == (before + DetailRows(ds[..i], ventaId, firstId)) + [DetailRow(ds[i], ventaId, firstId + i)]
  {
    assert ds[..i + 1][..i] == ds[..i];
  }

  /** One more payment, after the rows already in the table. */
  lemma PaymentRowsSnoc(before: seq<Payment>, ps: seq<CreatePaymentDto>, i: nat, m: CreateSaleDto, ventaId: Guid,
                        firstId: Guid, now: DateTime)
    requires i < |ps|
    ensures before + PaymentRows(ps[..i + 1], m, ventaId, firstId, now)
            == (before + PaymentRows(ps[..i], m, ventaId, firstId, now)) + [PaymentRow(ps[i], m, ventaId, firstId + i, now)]
  {
    assert ps[..i + 1][..i] == ps[..i];
  }

  /** The loop over the requested lines: one row each, keys from the
      counter. */
  method AddLines(ctx: ApplicationDbContext, ds: seq<CreateSaleDetailDto>, saleId: Guid)
    modifies ctx
    ensures ctx.Snapshot() == AppendLines(old(ctx.Snapshot()), ds, saleId)
  {
    ghost var t0 := ctx.Snapshot();
    var i := 0;
    while i < |ds|
      invariant 0 <= i <= |ds|
      invariant ctx.Snapshot() == t0.(detalleVentas := t0.detalleVentas + DetailRows(ds[..i], saleId, t0.nextId),
                                     nextId := t0.nextId + i)
    {
      var det := ds[i];
      var detailId := ctx.NewGuid();
      ctx.AddSaleDetail(SaleDetail(detailId, saleId, det.pacienteId, det.graduacionId, det.dpOd, det.dpOi,
                                   det.alturaOblea, det.catalogoId, det.descripcionManual, det.precioAplicado));
      DetailRowsSnoc(t0.detalleVentas, ds, i, saleId, t0.nextId);
      i := i + 1;
    }
    assert ds[..i] == ds;
  }

  /** The loop over the initial payments: one row each, keys from the
      counter, the staff id falling back to the sale's. */
  method AddPayments(ctx: ApplicationDbContext, m: CreateSaleDto, saleId: Guid, now: DateTime)
    modifies ctx
    ensures ctx.Snapshot() == AppendPayments(old(ctx.Snapshot()), m, saleId, now)
  {
    ghost var t0 := ctx.Snapshot();
    var ps := m.abonosIniciales;
    var j := 0;
    while j < |ps|
      invariant 0 <= j <= |ps|
      invariant ctx.Snapshot() == t0.(abonos := t0.abonos + PaymentRows(ps[..j], m, saleId, t0.nextId, now),
                                     nextId := t0.nextId + j)
    {
      AddPayment(ctx, ps[j], m, saleId, now);
      PaymentRowsSnoc(t0.abonos, ps, j, m, saleId, t0.nextId, now);
      j := j + 1;
    }
    assert ps[..j] == ps;
  }

  /** One initial payment: a fresh key, the given date or now (relabelled
      UTC when unspecified), the staff id falling back to the sale's. */
  method AddPayment(ctx: ApplicationDbContext, pay: CreatePaymentDto, m: CreateSaleDto, saleId: Guid, now: DateTime)
    modifies ctx
    ensures ctx.Snapshot() == old(ctx.Snapshot()).(
              abonos := old(ctx.abonos) + [PaymentRow(pay, m, saleId, old(ctx.nextId), now)],
              nextId := old(ctx.nextId) + 1)
    ensures ctx.abonos == old(ctx.abonos) + [PaymentRow(pay, m, saleId, old(ctx.nextId), now)]
    ensures ctx.nextId == old(ctx.nextId) + 1
  {
    var paymentId := ctx.NewGuid();
    var payUser := if !IsNullOrEmpty(pay.usuarioId) then pay.usuarioId
                   else if !IsNullOrEmpty(m.usuarioId) then m.usuarioId else None;
    var payment := Payment(paymentId, Some(saleId), pay.monto,
                           if pay.fechaPago.Some? then pay.fechaPago.value else now, pay.metodoPago, payUser);
    if payment.fechaPago.kind == Unspecified {
      payment := payment.(fechaPago := payment.fechaPago.(kind := Utc));
    }
    assert payment == PaymentRow(pay, m, saleId, paymentId, now);
    ctx.AddPayment(payment);
  }

  method CreateSaleAsync(ctx: ApplicationDbContext, m: CreateSaleDto, now: DateTime) returns (r: Result<Sale>)
    requires ctx.Valid()
    modifies ctx
    ensures Outcome(ctx.Snapshot(), r) == Capture(old(ctx.Snapshot()), m, now)
    ensures ctx.Valid()
  {
    var saved := ctx.Snapshot();
    var sale := NewSaleHeader(ctx, m, now);
    var ok := ctx.SaveChanges();
    if !ok {
      ctx.Restore(saved);
      return Fail(Thrown);
    }
    AddLines(ctx, m.detalles, sale.id);
    AddPayments(ctx, m, sale.id, now);
    WithLinesInSteps(saved, m, now);
    assert ctx.Snapshot() == WithLines(saved, m, now);
    ok := ctx.SaveChanges();
    if !ok {
      ctx.Restore(saved);
      return Fail(Thrown);
    }
    CaptureIdsBelow(saved, m, now);
    r := Ok(sale);
  }

  /** WithLines in the order the action builds it: the header, then the
      lines, then the payments, each drawing keys from the counter. */
  lemma WithLinesInSteps(t: Tables, m: CreateSaleDto, now: DateTime)
    ensures WithLines(t, m, now) == AppendPayments(AppendLines(WithHeader(t, m, now), m.detalles, t.nextId), m, t.nextId, now)
  {
  }

  /** Builds the header (status Activa, the caller's totals, the date
      relabelled UTC when unspecified) and adds it to Ventas. */
  method NewSaleHeader(ctx: ApplicationDbContext, m: CreateSaleDto, now: DateTime) returns (sale: Sale)
    modifies ctx
    ensures sale == SaleHeader(m, old(ctx.nextId), now) && sale.id == old(ctx.nextId)
    ensures ctx.Snapshot() == WithHeader(old(ctx.Snapshot()), m, now)
  {
    var fecha := if m.fecha.Some? then m.fecha.value else now;
    var usuario := if IsNullOrEmpty(m.usuarioId) then None else m.usuarioId;
    var saleId := ctx.NewGuid();
    sale := Sale(saleId, m.folioFisico, fecha, m.consultaId, m.totalVenta, m.saldoPendiente,
                 Some(StatusActive), m.observacionesGenerales, None, usuario);
    if sale.fecha.kind == Unspecified {
      sale := sale.(fecha := sale.fecha.(kind := Utc));
    }
    ctx.AddSale(sale);
  }

  // ------------------------------------------------------------ properties

  /** The rows a successful capture adds get keys at or above the counter
      and below the new one, so the counter invariant survives. */
  lemma CaptureIdsBelow(t: Tables, m: CreateSaleDto, now: DateTime)
    requires IdsBelow(t)
    ensures IdsBelow(WithLines(t, m, now))
  {
    var id := t.nextId;
    DetailKeysBelow(t.detalleVentas, DetailRows(m.detalles, id, id + 1), id + 1);
    PaymentKeysBelow(t.abonos, PaymentRows(m.abonosIniciales, m, id, id + 1 + |m.detalles|, now), id + 1 + |m.detalles|);
  }

  lemma DetailKeysBelow(prior: seq<SaleDetail>, ds: seq<SaleDetail>, bound: Guid)
    requires forall x | x in prior :: x.id < bound
    requires forall i | 0 <= i < |ds| :: ds[i].id == bound + i
    ensures forall x | x in prior + ds :: x.id < bound + |ds|
  {
    forall x | x in prior + ds ensures x.id < bound + |ds| {
      if x !in prior {
        var k :| 0 <= k < |ds| && ds[k] == x;
      }
    }
  }

  lemma PaymentKeysBelow(prior: seq<Payment>, ps: seq<Payment>, bound: Guid)
    requires forall x | x in prior :: x.id < bound
    requires forall i | 0 <= i < |ps| :: ps[i].id == bound + i
    ensures forall x | x in prior + ps :: x.id < bound + |ps|
  {
    forall x | x in prior + ps ensures x.id < bound + |ps| {
      if x !in prior {
        var k :| 0 <= k < |ps| && ps[k] == x;
      }
    }
  }

  /** A committed capture stores the header with status Activa and the
      caller's totals, one line per requested line and one payment per
      initial payment, in order, all linked to the new sale, with the
      staff-id fallback; a refused one leaves the tables untouched. */
  lemma CaptureRows(t: Tables, m: CreateSaleDto, now: DateTime)
    ensures var o := Capture(t, m, now);
            && (o.result.Fail? ==> o.tables == t && o.result == Fail(Thrown))
            && (o.result.Ok? ==>
                  var s := o.result.value;
                  var n := |t.detalleVentas|;
                  var k := |t.abonos|;
                  && s.estado == Some(StatusActive)
                  && s.totalVenta == m.totalVenta && s.saldoPendiente == m.saldoPendiente
                  && o.tables.ventas == t.ventas + [s]
                  && o.tables.pacientes == t.pacientes && o.tables.consultas == t.consultas
                  && |o.tables.detalleVentas| == n + |m.detalles|
                  && o.tables.detalleVentas[..n] == t.detalleVentas
                  && (forall i :: 0 <= i < |m.detalles| ==>
                        var d := o.tables.detalleVentas[n + i];
                        && d.ventaId == s.id && d.pacienteId == m.detalles[i].pacienteId
                        && d.graduacionId == m.detalles[i].graduacionId
                        && d.precioAplicado == m.detalles[i].precioAplicado)
                  && |o.tables.abonos| == k + |m.abonosIniciales|
                  && o.tables.abonos[..k] == t.abonos
                  && (forall i :: 0 <= i < |m.abonosIniciales| ==>
                        var a := o.tables.abonos[k + i];
                        && a.ventaId == Some(s.id) && a.monto == m.abonosIniciales[i].monto
                        && a.usuarioId == PaymentUser(m.abonosIniciales[i], m)))
  {
    if Capture(t, m, now).result.Ok? {
      var t2 := WithLines(t, m, now);
      assert t2.detalleVentas[..|t.detalleVentas|] == t.detalleVentas;
      assert t2.abonos[..|t.abonos|] == t.abonos;
    }
  }

  /** What the database must already hold for a capture to be accepted:
      the referenced consultation, staff, patients and graduations exist,
      and the bounded text columns fit. */
  predicate CaptureRefsOk(t: Tables, m: CreateSaleDto)
  {
    && RefOk(m.consultaId, ConsultaIds(t))
    && RefOk(NonEmpty(m.usuarioId), UserIds(t))
    && FitsIn(m.folioFisico, FolioFisicoMaxLength)
    && LinesRefsOk(t, m)
    && PaymentsRefsOk(t, m)
  }

  /** The header alone is accepted exactly when its own references and
      lengths are. */
  lemma WithHeaderOk(t: Tables, m: CreateSaleDto, now: DateTime)
    requires Consistent(t)
    ensures DbConstraints(WithHeader(t, m, now)) <==> SaleOk(t, SaleHeader(m, t.nextId, now))
  {
    var t1 := WithHeader(t, m, now);
    var s := SaleHeader(m, t.nextId, now);
    assert VentaIds(t1) == VentaIds(t) + {s.id};
    assert s in t1.ventas;
    if SaleOk(t, s) {
      FreshSaleKey(t.ventas, s, t.nextId);
      forall x | x in t1.ventas ensures SaleOk(t1, x) {
        if x != s {
          assert x in t.ventas && SaleOk(t, x);
        }
      }
      forall d | d in t1.detalleVentas ensures SaleDetailOk(t1, d) {
        assert SaleDetailOk(t, d);
      }
      forall p | p in t1.abonos ensures PaymentOk(t1, p) {
        assert PaymentOk(t, p);
      }
    }
  }

  /** Keys of new rows are fresh and consecutive, so they never clash. */
  lemma WithLinesKeys(t: Tables, m: CreateSaleDto, now: DateTime)
    requires Consistent(t)
    ensures KeysUnique(WithLines(t, m, now)) <==> KeysUnique(WithHeader(t, m, now))
    ensures KeysUnique(WithHeader(t, m, now))
  {
    var id := t.nextId;
    FreshSaleKey(t.ventas, SaleHeader(m, id, now), id);
    FreshDetailKeys(t.detalleVentas, DetailRows(m.detalles, id, id + 1), id + 1);
    FreshPaymentKeys(t.abonos, PaymentRows(m.abonosIniciales, m, id, id + 1 + |m.detalles|, now), id + 1 + |m.detalles|);
  }

  lemma FreshSaleKey(vs: seq<Sale>, v: Sale, bound: Guid)
    requires UniqueVentaIds(vs) && (forall x | x in vs :: x.id < bound) && v.id == bound
    ensures UniqueVentaIds(vs + [v])
  {
    var s := vs + [v];
    forall a, b | 0 <= a < b < |s| ensures s[a].id != s[b].id {
      if b == |vs| {
        assert s[a] in vs;
      } else {
        assert s[a] == vs[a] && s[b] == vs[b];
      }
    }
  }

  lemma FreshDetailKeys(prior: seq<SaleDetail>, ds: seq<SaleDetail>, bound: Guid)
    requires UniqueDetailIds(prior) && (forall x | x in prior :: x.id < bound)
    requires forall i | 0 <= i < |ds| :: ds[i].id == bound + i
    ensures UniqueDetailIds(prior + ds)
  {
    var s := prior + ds;
    var n := |prior|;
    forall a, b | 0 <= a < b < |s| ensures s[a].id != s[b].id {
      if b >= n {
        assert s[b] == ds[b - n];
        if a < n {
          assert s[a] in prior;
        } else {
          assert s[a] == ds[a - n];
        }
      } else {
        assert s[a] == prior[a] && s[b] == prior[b];
      }
    }
  }

  lemma FreshPaymentKeys(prior: seq<Payment>, ps: seq<Payment>, bound: Guid)
    requires UniqueAbonoIds(prior) && (forall x | x in prior :: x.id < bound)
    requires forall i | 0 <= i < |ps| :: ps[i].id == bound + i
    ensures UniqueAbonoIds(prior + ps)
  {
    var s := prior + ps;
    var n := |prior|;
    forall a, b | 0 <= a < b < |s| ensures s[a].id != s[b].id {
      if b >= n {
        assert s[b] == ps[b - n];
        if a < n {
          assert s[a] in prior;
        } else {
          assert s[a] == ps[a - n];
        }
      } else {
        assert s[a] == prior[a] && s[b] == prior[b];
      }
    }
  }

  predicate LinesRefsOk(t: Tables, m: CreateSaleDto)
  {
    forall d | d in m.detalles :: RefOk(d.pacienteId, PatientIds(t)) && RefOk(d.graduacionId, GraduacionIds(t))
  }

  predicate PaymentsRefsOk(t: Tables, m: CreateSaleDto)
  {
    forall p | p in m.abonosIniciales :: RefOk(PaymentUser(p, m), UserIds(t)) && FitsIn(p.metodoPago, MetodoPagoMaxLength)
  }

  /** Accepted lines and payments had their references in place. */
  lemma LinesSavedHadRefs(t: Tables, m: CreateSaleDto, now: DateTime)
    requires DbConstraints(WithLines(t, m, now))
    ensures LinesRefsOk(t, m) && PaymentsRefsOk(t, m)
  {
    var t2 := WithLines(t, m, now);
    var id := t.nextId;
    var ds := DetailRows(m.detalles, id, id + 1);
    var ps := PaymentRows(m.abonosIniciales, m, id, id + 1 + |m.detalles|, now);
    forall d | d in m.detalles ensures RefOk(d.pacienteId, PatientIds(t)) && RefOk(d.graduacionId, GraduacionIds(t)) {
      var k :| 0 <= k < |m.detalles| && m.detalles[k] == d;
      assert ds[k] in t2.detalleVentas;
      assert SaleDetailOk(t2, ds[k]);
    }
    forall p | p in m.abonosIniciales
      ensures RefOk(PaymentUser(p, m), UserIds(t)) && FitsIn(p.metodoPago, MetodoPagoMaxLength)
    {
      var k :| 0 <= k < |m.abonosIniciales| && m.abonosIniciales[k] == p;
      assert ps[k] in t2.abonos;
      assert PaymentOk(t2, ps[k]);
    }
  }

  lemma NewLinesOk(t: Tables, m: CreateSaleDto, now: DateTime)
    requires forall x | x in t.detalleVentas :: SaleDetailOk(WithHeader(t, m, now), x)
    requires LinesRefsOk(t, m)
    ensures forall x | x in WithLines(t, m, now).detalleVentas :: SaleDetailOk(WithLines(t, m, now), x)
  {
    var t1 := WithHeader(t, m, now);
    var t2 := WithLines(t, m, now);
    var ds := DetailRows(m.detalles, t.nextId, t.nextId + 1);
    assert VentaIds(t2) == VentaIds(t1);
    assert t.nextId in VentaIds(t1);
    forall x | x in t2.detalleVentas ensures SaleDetailOk(t2, x) {
      if x in t.detalleVentas {
        assert SaleDetailOk(t1, x);
      } else {
        var k :| 0 <= k < |ds| && ds[k] == x;
        assert m.detalles[k] in m.detalles;
      }
    }
  }

  lemma NewPaymentsOk(t: Tables, m: CreateSaleDto, now: DateTime)
    requires forall x | x in t.abonos :: PaymentOk(WithHeader(t, m, now), x)
    requires PaymentsRefsOk(t, m)
    ensures forall x | x in WithLines(t, m, now).abonos :: PaymentOk(WithLines(t, m, now), x)
  {
    var t1 := WithHeader(t, m, now);
    var t2 := WithLines(t, m, now);
    var ps := PaymentRows(m.abonosIniciales, m, t.nextId, t.nextId + 1 + |m.detalles|, now);
    assert VentaIds(t2) == VentaIds(t1);
    assert t.nextId in VentaIds(t1);
    forall x | x in t2.abonos ensures PaymentOk(t2, x) {
      if x in t.abonos {
        assert PaymentOk(t1, x);
      } else {
        var k :| 0 <= k < |ps| && ps[k] == x;
        assert m.abonosIniciales[k] in m.abonosIniciales;
      }
    }
  }

  /** With the header accepted, the lines and payments are accepted
      exactly when each one's references and lengths are. */
  lemma WithLinesOk(t: Tables, m: CreateSaleDto, now: DateTime)
    requires Consistent(t) && DbConstraints(WithHeader(t, m, now))
    ensures DbConstraints(WithLines(t, m, now)) <==> LinesRefsOk(t, m) && PaymentsRefsOk(t, m)
  {
    var t1 := WithHeader(t, m, now);
    var t2 := WithLines(t, m, now);
    if DbConstraints(t2) {
      LinesSavedHadRefs(t, m, now);
    }
    if LinesRefsOk(t, m) && PaymentsRefsOk(t, m) {
      WithLinesKeys(t, m, now);
      NewLinesOk(t, m, now);
      NewPaymentsOk(t, m, now);
      assert forall c | c in t2.consultas :: ConsultationOk(t2, c) by {
        forall c | c in t2.consultas ensures ConsultationOk(t2, c) {
          assert ConsultationOk(t1, c);
        }
      }
      assert forall g | g in t2.graduaciones :: GraduationOk(t2, g) by {
        forall g | g in t2.graduaciones ensures GraduationOk(t2, g) {
          assert GraduationOk(t1, g);
        }
      }
      assert forall s | s in t2.ventas :: SaleOk(t2, s) by {
        forall s | s in t2.ventas ensures SaleOk(t2, s) {
          assert SaleOk(t1, s);
        }
      }
    }
  }

  /** From a consistent database, a capture commits exactly when every
      reference it makes exists and every bounded column fits; a committed
      capture leaves the database consistent. */
  lemma CaptureSucceedsIff(t: Tables, m: CreateSaleDto, now: DateTime)
    requires Consistent(t)
    ensures Capture(t, m, now).result.Ok? <==> CaptureRefsOk(t, m)
    ensures Consistent(Capture(t, m, now).tables)
  {
    WithHeaderOk(t, m, now);
    var s := SaleHeader(m, t.nextId, now);
    assert SaleOk(t, s) <==> RefOk(m.consultaId, ConsultaIds(t)) && RefOk(NonEmpty(m.usuarioId), UserIds(t))
                             && FitsIn(m.folioFisico, FolioFisicoMaxLength);
    assert CaptureRefsOk(t, m) <==> SaleOk(t, s) && LinesRefsOk(t, m) && PaymentsRefsOk(t, m);
    if DbConstraints(WithHeader(t, m, now)) {
      WithLinesOk(t, m, now);
      CaptureIdsBelow(t, m, now);
    }
  }

  // ---------------------------------------------------------------- queries

  /** A sale with the lines and payments Include loads for it. */
  datatype SaleView = SaleView(sale: Sale, detalles: seq<SaleDetail>, abonos: seq<Payment>)

  function IsLineOf(id: Guid): SaleDetail -> bool
  {
    (d: SaleDetail) => d.ventaId == id
  }

  function IsPaymentOf(id: Guid): Payment -> bool
  {
    (a: Payment) => a.ventaId == Some(id)
  }

  /** Include(v => v.Detalles): the lines whose VentaId is the sale's. */
  function LinesOf(t: Tables, id: Guid): seq<SaleDetail>
  {
    Filter(t.detalleVentas, IsLineOf(id))
  }

  /** Include(v => v.Abonos): the payments whose VentaId is the sale's. */
  function PaymentsOf(t: Tables, id: Guid): seq<Payment>
  {
    Filter(t.abonos, IsPaymentOf(id))
  }

  function SaleIndex(ventas: seq<Sale>, id: Guid): (r: Option<nat>)
    ensures r.Some? ==> r.value < |ventas| && ventas[r.value].id == id
    ensures r.Some? ==> forall k :: 0 <= k < r.value ==> ventas[k].id != id
    ensures r.None? <==> forall k :: 0 <= k < |ventas| ==> ventas[k].id != id
  {
    if ventas == [] then None
    else if ventas[0].id == id then Some(0)
    else
      var r := SaleIndex(ventas[1..], id);
      if r.Some? then Some(r.value + 1) else None
  }

  /** GetSaleByIdAsync: the first sale with that id, with its lines and
      payments, or null. */
  function GetSaleById(t: Tables, id: Guid): (r: Option<SaleView>)
    ensures r.None? <==> forall k :: 0 <= k < |t.ventas| ==> t.ventas[k].id != id
    ensures r.Some? ==> r.value.sale in t.ventas && r.value.sale.id == id
                        && r.value.detalles == LinesOf(t, id) && r.value.abonos == PaymentsOf(t, id)
  {
    match SaleIndex(t.ventas, id)
    case None => None
    case Some(i) => Some(SaleView(t.ventas[i], LinesOf(t, id), PaymentsOf(t, id)))
  }

  /** Filtering rows none of which are kept, followed by rows all of
      which are, leaves exactly the latter. */
  lemma FilterKeepsTail<T>(prior: seq<T>, later: seq<T>, keep: T -> bool)
    requires forall x | x in prior :: !keep(x)
    requires forall i | 0 <= i < |later| :: keep(later[i])
    ensures Filter(prior + later, keep) == later
  {
    FilterNone(prior, keep);
    FilterAll(later, keep);
    FilterAppend(prior, later, keep);
    assert [] + later == later;
  }

  /** Appending lines of one sale after lines of other sales: filtering by
      that sale gives exactly the appended lines. */
  lemma LinesFilterTail(before: seq<SaleDetail>, added: seq<SaleDetail>, id: Guid)
    requires forall d | d in before :: d.ventaId != id
    requires forall i | 0 <= i < |added| :: added[i].ventaId == id
    ensures Filter(before + added, IsLineOf(id)) == added
  {
    FilterKeepsTail(before, added, IsLineOf(id));
  }

  lemma PaymentsFilterTail(before: seq<Payment>, added: seq<Payment>, id: Guid)
    requires forall a | a in before :: a.ventaId != Some(id)
    requires forall i | 0 <= i < |added| :: added[i].ventaId == Some(id)
    ensures Filter(before + added, IsPaymentOf(id)) == added
  {
    FilterKeepsTail(before, added, IsPaymentOf(id));
  }

  /** Every line built for a sale carries that sale's key. */
  lemma DetailRowsOfSale(ds: seq<CreateSaleDetailDto>, ventaId: Guid, firstId: Guid)
    ensures forall i | 0 <= i < |ds| :: DetailRows(ds, ventaId, firstId)[i].ventaId == ventaId
  {
  }

  lemma PaymentRowsOfSale(ps: seq<CreatePaymentDto>, m: CreateSaleDto, ventaId: Guid, firstId: Guid, now: DateTime)
    ensures forall i | 0 <= i < |ps| :: PaymentRows(ps, m, ventaId, firstId, now)[i].ventaId == Some(ventaId)
  {
  }

  lemma WithLinesParts(t: Tables, m: CreateSaleDto, now: DateTime)
    ensures WithLines(t, m, now).ventas == t.ventas + [SaleHeader(m, t.nextId, now)]
    ensures WithLines(t, m, now).detalleVentas == t.detalleVentas + DetailRows(m.detalles, t.nextId, t.nextId + 1)
    ensures WithLines(t, m, now).abonos
            == t.abonos + PaymentRows(m.abonosIniciales, m, t.nextId, t.nextId + 1 + |m.detalles|, now)
  {
  }

  lemma SaleIndexOfNewSale(ventas: seq<Sale>, s: Sale)
    requires forall x | x in ventas :: x.id != s.id
    ensures SaleIndex(ventas + [s], s.id) == Some(|ventas|)
  {
    var all := ventas + [s];
    assert all[|ventas|] == s;
    forall k | 0 <= k < |ventas| ensures all[k].id != s.id {
      assert all[k] in ventas;
    }
  }

  /** Appending a sale whose key is new, together with its lines and
      payments, makes reading it back give exactly those rows. */
  lemma GetSaleOfAppended(before: Tables, after: Tables, s: Sale, ds: seq<SaleDetail>, ps: seq<Payment>)
    requires after.ventas == before.ventas + [s]
    requires after.detalleVentas == before.detalleVentas + ds
    requires after.abonos == before.abonos + ps
    requires forall x | x in before.ventas :: x.id != s.id
    requires forall d | d in before.detalleVentas :: d.ventaId != s.id
    requires forall a | a in before.abonos :: a.ventaId != Some(s.id)
    requires forall i | 0 <= i < |ds| :: ds[i].ventaId == s.id
    requires forall i | 0 <= i < |ps| :: ps[i].ventaId == Some(s.id)
    ensures GetSaleById(after, s.id) == Some(SaleView(s, ds, ps))
  {
    LinesFilterTail(before.detalleVentas, ds, s.id);
    PaymentsFilterTail(before.abonos, ps, s.id);
    SaleIndexOfNewSale(before.ventas, s);
  }

  /** Reading a sale back right after capturing it gives the header, and
      exactly the lines and payments the capture created, in order. */
  lemma GetSaleAfterCapture(t: Tables, m: CreateSaleDto, now: DateTime)
    requires Consistent(t) && Capture(t, m, now).result.Ok?
    ensures var o := Capture(t, m, now);
            var id := t.nextId;
            GetSaleById(o.tables, id)
              == Some(SaleView(o.result.value, DetailRows(m.detalles, id, id + 1),
                               PaymentRows(m.abonosIniciales, m, id, id + 1 + |m.detalles|, now)))
  {
    var o := Capture(t, m, now);
    assert o.tables == WithLines(t, m, now) && o.result.value == SaleHeader(m, t.nextId, now);
    NothingReferencesNextKey(t);
    GetSaleAfterLines(t, m, now);
  }

  lemma GetSaleAfterLines(t: Tables, m: CreateSaleDto, now: DateTime)
    requires forall s | s in t.ventas :: s.id != t.nextId
    requires forall d | d in t.detalleVentas :: d.ventaId != t.nextId
    requires forall a | a in t.abonos :: a.ventaId != Some(t.nextId)
    ensures var id := t.nextId;
            GetSaleById(WithLines(t, m, now), id)
              == Some(SaleView(SaleHeader(m, id, now), DetailRows(m.detalles, id, id + 1),
                               PaymentRows(m.abonosIniciales, m, id, id + 1 + |m.detalles|, now)))
  {
    var id := t.nextId;
    DetailRowsOfSale(m.detalles, id, id + 1);
    PaymentRowsOfSale(m.abonosIniciales, m, id, id + 1 + |m.detalles|, now);
    WithLinesParts(t, m, now);
    GetSaleOfAppended(t, WithLines(t, m, now), SaleHeader(m, id, now),
                      DetailRows(m.detalles, id, id + 1),
                      PaymentRows(m.abonosIniciales, m, id, id + 1 + |m.detalles|, now));
  }

  /** No stored line or payment points at a key the counter has not
      handed out yet. */
  lemma NothingReferencesNextKey(t: Tables)
    requires Consistent(t)
    ensures forall s | s in t.ventas :: s.id != t.nextId
    ensures forall d | d in t.detalleVentas :: d.ventaId != t.nextId
    ensures forall a | a in t.abonos :: a.ventaId != Some(t.nextId)
  {
    assert t.nextId !in VentaIds(t);
    forall d | d in t.detalleVentas ensures d.ventaId != t.nextId {
      assert SaleDetailOk(t, d);
    }
    forall a | a in t.abonos ensures a.ventaId != Some(t.nextId) {
      assert PaymentOk(t, a);
    }
  }

  /** A sale belongs to a patient through its consultation or through any
      of its lines. */
  predicate LinkedToPatient(t: Tables, s: Sale, patientId: Guid)
  {
    || (s.consultaId.Some? && exists c :: c in t.consultas && c.id == s.consultaId.value && c.pacienteId == patientId)
    || (exists d :: d in t.detalleVentas && d.ventaId == s.id && d.pacienteId == Some(patientId))
  }

  /** OrderByDescending(s => s.Fecha) */
  predicate LaterOrSame(a: Sale, b: Sale)
  {
    !DateTimeLess(a.fecha, b.fecha)
  }

  lemma LaterOrSameIsPreorder(s: seq<Sale>)
    ensures PreorderOn(LaterOrSame, s)
  {
  }

  function IsLinkedTo(t: Tables, patientId: Guid): Sale -> bool
  {
    (s: Sale) => LinkedToPatient(t, s, patientId)
  }

  function PatientSales(t: Tables, patientId: Guid): seq<Sale>
  {
    Filter(t.ventas, IsLinkedTo(t, patientId))
  }

  /** A sale with its lines and payments loaded. */
  function ViewOf(t: Tables): Sale -> SaleView
  {
    (s: Sale) => SaleView(s, LinesOf(t, s.id), PaymentsOf(t, s.id))
  }

  /** GetSalesByPatientAsync, with each sale's lines and payments. */
  function GetSalesByPatient(t: Tables, patientId: Guid): (r: seq<SaleView>)
    ensures |r| == |PatientSales(t, patientId)|
  {
    var sorted := SortBy(PatientSales(t, patientId), LaterOrSame);
    Map(sorted, ViewOf(t))
  }

  /** The patient's sales are exactly the sales linked to it, each once as
      often as stored, latest first. */
  lemma GetSalesByPatientSpec(t: Tables, patientId: Guid)
    ensures var r := GetSalesByPatient(t, patientId);
            var sales := Map(r, (v: SaleView) => v.sale);
            && SortedBy(LaterOrSame, sales)
            && multiset(sales) == multiset(PatientSales(t, patientId))
            && (forall s :: s in sales <==> s in t.ventas && LinkedToPatient(t, s, patientId))
            && (forall v :: v in r ==> v.detalles == LinesOf(t, v.sale.id) && v.abonos == PaymentsOf(t, v.sale.id))
  {
    var linked := PatientSales(t, patientId);
    var sorted := SortBy(linked, LaterOrSame);
    var r := GetSalesByPatient(t, patientId);
    var sales := Map(r, (v: SaleView) => v.sale);
    assert sales == sorted;
    LaterOrSameIsPreorder(linked);
    SortSorted(linked, LaterOrSame);
    SortByMembers(linked, LaterOrSame);
    forall s ensures s in linked <==> s in t.ventas && LinkedToPatient(t, s, patientId) {
      if s in linked {
        var k :| 0 <= k < |linked| && linked[k] == s;
      }
      if s in t.ventas && LinkedToPatient(t, s, patientId) {
        var k :| 0 <= k < |t.ventas| && t.ventas[k] == s;
      }
    }
  }
}
