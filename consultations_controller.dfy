/** Consultations and their graduations (prescriptions): the atomic
    header-plus-graduations capture, the standalone graduation insert, the
    patient's consultation history and the delete that the database refuses
    while a sale still depends on the consultation. */
module ConsultationsController {
  import opened Common
  import opened Dates
  import opened Entities
  import opened Data

  /** The text stored in a JSON column when the request carried none. */
  const EmptyJson: string := "{}"

  function JsonOrEmpty(s: Option<string>): (r: string)
    ensures s.None? ==> r == EmptyJson
    ensures s.Some? ==> r == s.value
  {
    if s.Some? then s.value else EmptyJson
  }

  // ------------------------------------------------------------ row builders

  /** The header: the request's fields, the date defaulting to now and
      relabelled UTC when unspecified, clinical details "{}" when absent. */
  function ConsultationRow(m: CreateConsultationDto, id: Guid, now: DateTime): Consultation
  {
    var fecha := if m.fecha.Some? then m.fecha.value else now;
    Consultation(id, m.pacienteId, SpecifyUtcIfUnspecified(fecha), m.motivoConsulta, m.observaciones,
                 m.costoServicio, m.estadoFinanciero, Some(JsonOrEmpty(m.detallesClinicos)), m.usuarioId)
  }

  /** A graduation linked to a consultation, mounting details "{}" when
      absent. */
  function GraduationRow(g: CreateGraduationDto, consultaId: Guid, id: Guid): Graduation
  {
    Graduation(id, consultaId, g.tipoGraduacion, g.od, g.oi, Some(JsonOrEmpty(g.detallesMontaje)))
  }

  function GraduationRows(gs: seq<CreateGraduationDto>, consultaId: Guid, firstId: Guid): (r: seq<Graduation>)
    ensures |r| == |gs|
    ensures forall i :: 0 <= i < |gs| ==> r[i] == GraduationRow(gs[i], consultaId, firstId + i)
  {
    if gs == [] then []
    else GraduationRows(gs[..|gs| - 1], consultaId, firstId) + [GraduationRow(gs[|gs| - 1], consultaId, firstId + |gs| - 1)]
  }

  /** One more graduation, after the rows already in the table. */
  lemma GraduationRowsSnoc(before: seq<Graduation>, gs: seq<CreateGraduationDto>, i: nat, consultaId: Guid,
                           firstId: Guid)
    requires i < |gs|
    ensures before + GraduationRows(gs[..i + 1], consultaId, firstId)
            == (before + GraduationRows(gs[..i], consultaId, firstId)) + [GraduationRow(gs[i], consultaId, firstId + i)]
  {
    assert gs[..i + 1][..i] == gs[..i];
  }

  /** The graduations of the request; a JSON null is none. */
  function Submitted(m: CreateConsultationDto): seq<CreateGraduationDto>
  {
    if m.graduaciones.Some? then m.graduaciones.value else []
  }

  // ------------------------------------------------------------------ create

  function WithConsultation(t: Tables, m: CreateConsultationDto, now: DateTime): Tables
  {
    t.(consultas := t.consultas + [ConsultationRow(m, t.nextId, now)], nextId := t.nextId + 1)
  }

  function WithGraduations(t: Tables, m: CreateConsultationDto, now: DateTime): Tables
  {
    var id := t.nextId;
    var gs := Submitted(m);
    t.(consultas := t.consultas + [ConsultationRow(m, id, now)],
       graduaciones := t.graduaciones + GraduationRows(gs, id, id + 1),
       nextId := id + 1 + |gs|)
  }

  /** CreateConsultation: save the header; when graduations were sent, add
      them and save again; a refused save rolls the transaction back and
      answers 500. */
  function CreateConsultationSpec(t: Tables, m: CreateConsultationDto, now: DateTime): Outcome<Consultation>
  {
    var c := ConsultationRow(m, t.nextId, now);
    if !DbConstraints(WithConsultation(t, m, now)) then Outcome(t, Fail(ServerError))
    else if |Submitted(m)| == 0 then Outcome(WithConsultation(t, m, now), Ok(c))
    else if !DbConstraints(WithGraduations(t, m, now)) then Outcome(t, Fail(ServerError))
    else Outcome(WithGraduations(t, m, now), Ok(c))
  }

  method AddGraduations(ctx: ApplicationDbContext, gs: seq<CreateGraduationDto>, consultaId: Guid)
    modifies ctx
    ensures ctx.Snapshot() == old(ctx.Snapshot()).(
              graduaciones := old(ctx.graduaciones) + GraduationRows(gs, consultaId, old(ctx.nextId)),
              nextId := old(ctx.nextId) + |gs|)
  {
    ghost var t0 := ctx.Snapshot();
    var i := 0;
    while i < |gs|
      invariant 0 <= i <= |gs|
      invariant ctx.Snapshot() == t0.(graduaciones := t0.graduaciones + GraduationRows(gs[..i], consultaId, t0.nextId),
                                     nextId := t0.nextId + i)
    {
      var g := gs[i];
      var gradId := ctx.NewGuid();
      var montaje := if g.detallesMontaje.Some? then g.detallesMontaje.value else EmptyJson;
      ctx.AddGraduation(Graduation(gradId, consultaId, g.tipoGraduacion, g.od, g.oi, Some(montaje)));
      GraduationRowsSnoc(t0.graduaciones, gs, i, consultaId, t0.nextId);
      i := i + 1;
    }
    assert gs[..i] == gs;
  }

  method NewConsultationRow(ctx: ApplicationDbContext, m: CreateConsultationDto, now: DateTime)
    returns (consulta: Consultation)
    modifies ctx
    ensures consulta == ConsultationRow(m, old(ctx.nextId), now)
    ensures ctx.Snapshot() == WithConsultation(old(ctx.Snapshot()), m, now)
  {
    var id := ctx.NewGuid();
    var detalles := if m.detallesClinicos.Some? then m.detallesClinicos.value else EmptyJson;
    consulta := Consultation(id, m.pacienteId, if m.fecha.Some? then m.fecha.value else now, m.motivoConsulta,
                             m.observaciones, m.costoServicio, m.estadoFinanciero, Some(detalles), m.usuarioId);
    if consulta.fecha.kind == Unspecified {
      consulta := consulta.(fecha := consulta.fecha.(kind := Utc));
    }
    ctx.AddConsultation(consulta);
  }

  method CreateConsultation(ctx: ApplicationDbContext, m: CreateConsultationDto, now: DateTime)
    returns (r: Result<Consultation>)
    requires ctx.Valid()
    modifies ctx
    ensures Outcome(ctx.Snapshot(), r) == CreateConsultationSpec(old(ctx.Snapshot()), m, now)
    ensures ctx.Valid()
  {
    var saved := ctx.Snapshot();
    var consulta := NewConsultationRow(ctx, m, now);
    var ok := ctx.SaveChanges();
    if !ok {
      ctx.Restore(saved);
      return Fail(ServerError);
    }
    if m.graduaciones.Some? && |m.graduaciones.value| > 0 {
      AddGraduations(ctx, m.graduaciones.value, consulta.id);
      assert ctx.Snapshot() == WithGraduations(saved, m, now);
      ok := ctx.SaveChanges();
      if !ok {
        ctx.Restore(saved);
        return Fail(ServerError);
      }
      GraduationsIdsBelow(saved, m, now);
    } else {
      GraduationsIdsBelow(saved, m, now);
      assert ctx.Snapshot() == WithConsultation(saved, m, now);
    }
    r := Ok(consulta);
  }

  // -------------------------------------------------------- create: proofs

  /** With no graduations the second save is skipped, and the state is the
      same as if none had been added. */
  lemma NoGraduationsSame(t: Tables, m: CreateConsultationDto, now: DateTime)
    requires |Submitted(m)| == 0
    ensures WithGraduations(t, m, now) == WithConsultation(t, m, now)
  {
    assert t.graduaciones + GraduationRows(Submitted(m), t.nextId, t.nextId + 1) == t.graduaciones;
  }

  lemma GraduationsIdsBelow(t: Tables, m: CreateConsultationDto, now: DateTime)
    requires IdsBelow(t)
    ensures IdsBelow(WithGraduations(t, m, now))
    ensures IdsBelow(WithConsultation(t, m, now))
  {
    var t2 := WithGraduations(t, m, now);
    var gs := GraduationRows(Submitted(m), t.nextId, t.nextId + 1);
    forall g | g in t2.graduaciones ensures g.id < t2.nextId {
      if g !in t.graduaciones {
        var k :| 0 <= k < |gs| && gs[k] == g;
      }
    }
  }

  /** A committed capture stores the header (the request's patient, the
      date defaulted and relabelled, clinical details "{}" when absent) and
      one graduation per submitted one, in order, each linked to it; a
      refused one stores nothing and answers 500. */
  lemma CreateConsultationRows(t: Tables, m: CreateConsultationDto, now: DateTime)
    ensures var o := CreateConsultationSpec(t, m, now);
            && (o.result.Fail? ==> o.tables == t && o.result == Fail(ServerError))
            && (o.result.Ok? ==>
                  var c := o.result.value;
                  var gs := Submitted(m);
                  var n := |t.graduaciones|;
                  && o.tables == WithGraduations(t, m, now)
                  && c.id == t.nextId && c.pacienteId == m.pacienteId
                  && c.fecha == SpecifyUtcIfUnspecified(if m.fecha.Some? then m.fecha.value else now)
                  && c.detallesClinicos == Some(if m.detallesClinicos.Some? then m.detallesClinicos.value else "{}")
                  && o.tables.consultas == t.consultas + [c]
                  && o.tables.pacientes == t.pacientes && o.tables.ventas == t.ventas
                  && |o.tables.graduaciones| == n + |gs|
                  && o.tables.graduaciones[..n] == t.graduaciones
                  && (forall i :: 0 <= i < |gs| ==>
                        var g := o.tables.graduaciones[n + i];
                        && g.consultaId == c.id && g.tipoGraduacion == gs[i].tipoGraduacion
                        && g.od == gs[i].od && g.oi == gs[i].oi
                        && g.detallesMontaje == Some(if gs[i].detallesMontaje.Some? then gs[i].detallesMontaje.value else "{}")))
  {
    var o := CreateConsultationSpec(t, m, now);
    if o.result.Ok? {
      if |Submitted(m)| == 0 {
        NoGraduationsSame(t, m, now);
      }
      var t2 := WithGraduations(t, m, now);
      assert t2.graduaciones[..|t.graduaciones|] == t.graduaciones;
    }
  }

  /** What the database must already hold for the capture to be accepted:
      the patient and the staff member exist and the bounded texts fit. */
  predicate ConsultationRefsOk(t: Tables, m: CreateConsultationDto)
  {
    && m.pacienteId in PatientIds(t)
    && RefOk(m.usuarioId, UserIds(t))
    && FitsIn(m.motivoConsulta, MotivoConsultaMaxLength)
    && FitsIn(m.estadoFinanciero, EstadoFinancieroMaxLength)
  }

  predicate GraduationsFit(m: CreateConsultationDto)
  {
    forall g | g in Submitted(m) :: FitsIn(g.tipoGraduacion, TipoGraduacionMaxLength)
  }

  lemma WithConsultationOk(t: Tables, m: CreateConsultationDto, now: DateTime)
    requires Consistent(t)
    ensures DbConstraints(WithConsultation(t, m, now)) <==> ConsultationRefsOk(t, m)
  {
    var t1 := WithConsultation(t, m, now);
    var c := ConsultationRow(m, t.nextId, now);
    assert ConsultaIds(t1) == ConsultaIds(t) + {c.id};
    assert c in t1.consultas;
    if ConsultationRefsOk(t, m) {
      forall a, b | 0 <= a < b < |t1.consultas| ensures t1.consultas[a].id != t1.consultas[b].id {
        if b == |t.consultas| {
          assert t1.consultas[a] in t.consultas;
        } else {
          assert t1.consultas[a] == t.consultas[a] && t1.consultas[b] == t.consultas[b];
        }
      }
      forall x | x in t1.consultas ensures ConsultationOk(t1, x) {
        if x != c {
          assert x in t.consultas && ConsultationOk(t, x);
        }
      }
      forall g | g in t1.graduaciones ensures GraduationOk(t1, g) {
        assert GraduationOk(t, g);
      }
      forall s | s in t1.ventas ensures SaleOk(t1, s) {
        assert SaleOk(t, s);
      }
      forall d | d in t1.detalleVentas ensures SaleDetailOk(t1, d) {
        assert SaleDetailOk(t, d);
      }
      forall a | a in t1.abonos ensures PaymentOk(t1, a) {
        assert PaymentOk(t, a);
      }
    }
  }

  lemma WithGraduationsKeys(t: Tables, m: CreateConsultationDto, now: DateTime)
    requires Consistent(t) && DbConstraints(WithConsultation(t, m, now))
    ensures KeysUnique(WithGraduations(t, m, now))
  {
    var t1 := WithConsultation(t, m, now);
    var t2 := WithGraduations(t, m, now);
    assert t2.consultas == t1.consultas;
    FreshGraduationKeys(t.graduaciones, GraduationRows(Submitted(m), t.nextId, t.nextId + 1), t.nextId + 1);
  }

  lemma GraduationsSavedFit(t: Tables, m: CreateConsultationDto, now: DateTime)
    requires DbConstraints(WithGraduations(t, m, now))
    ensures GraduationsFit(m)
  {
    var t2 := WithGraduations(t, m, now);
    var gs := GraduationRows(Submitted(m), t.nextId, t.nextId + 1);
    forall g | g in Submitted(m) ensures FitsIn(g.tipoGraduacion, TipoGraduacionMaxLength) {
      var k :| 0 <= k < |Submitted(m)| && Submitted(m)[k] == g;
      assert gs[k] in t2.graduaciones;
      assert GraduationOk(t2, gs[k]);
    }
  }

  lemma NewGraduationsOk(t: Tables, m: CreateConsultationDto, now: DateTime)
    requires forall x | x in t.graduaciones :: GraduationOk(WithConsultation(t, m, now), x)
    requires GraduationsFit(m)
    ensures forall x | x in WithGraduations(t, m, now).graduaciones :: GraduationOk(WithGraduations(t, m, now), x)
  {
    var t1 := WithConsultation(t, m, now);
    var t2 := WithGraduations(t, m, now);
    var gs := GraduationRows(Submitted(m), t.nextId, t.nextId + 1);
    assert ConsultaIds(t2) == ConsultaIds(t1);
    assert t.nextId in ConsultaIds(t1);
    forall x | x in t2.graduaciones ensures GraduationOk(t2, x) {
      if x in t.graduaciones {
        assert GraduationOk(t1, x);
      } else {
        var k :| 0 <= k < |gs| && gs[k] == x;
        assert Submitted(m)[k] in Submitted(m);
      }
    }
  }

  lemma WithGraduationsOk(t: Tables, m: CreateConsultationDto, now: DateTime)
    requires Consistent(t) && DbConstraints(WithConsultation(t, m, now))
    ensures DbConstraints(WithGraduations(t, m, now)) <==> GraduationsFit(m)
  {
    var t1 := WithConsultation(t, m, now);
    var t2 := WithGraduations(t, m, now);
    if DbConstraints(t2) {
      GraduationsSavedFit(t, m, now);
    }
    if GraduationsFit(m) {
      WithGraduationsKeys(t, m, now);
      NewGraduationsOk(t, m, now);
      assert GraduacionIds(t2) >= GraduacionIds(t1);
      assert forall c | c in t2.consultas :: ConsultationOk(t2, c) by {
        forall c | c in t2.consultas ensures ConsultationOk(t2, c) {
          assert ConsultationOk(t1, c);
        }
      }
      assert forall s | s in t2.ventas :: SaleOk(t2, s) by {
        forall s | s in t2.ventas ensures SaleOk(t2, s) {
          assert SaleOk(t1, s);
        }
      }
      assert forall d | d in t2.detalleVentas :: SaleDetailOk(t2, d) by {
        forall d | d in t2.detalleVentas ensures SaleDetailOk(t2, d) {
          assert SaleDetailOk(t1, d);
        }
      }
      assert forall a | a in t2.abonos :: PaymentOk(t2, a) by {
        forall a | a in t2.abonos ensures PaymentOk(t2, a) {
          assert PaymentOk(t1, a);
        }
      }
    }
  }

  /** From a consistent database the capture commits exactly when the
      patient and staff member exist and every bounded text fits, and a
      commit leaves the database consistent. */
  lemma CreateConsultationSucceedsIff(t: Tables, m: CreateConsultationDto, now: DateTime)
    requires Consistent(t)
    ensures CreateConsultationSpec(t, m, now).result.Ok? <==> ConsultationRefsOk(t, m) && GraduationsFit(m)
    ensures Consistent(CreateConsultationSpec(t, m, now).tables)
  {
    WithConsultationOk(t, m, now);
    GraduationsIdsBelow(t, m, now);
    if DbConstraints(WithConsultation(t, m, now)) {
      WithGraduationsOk(t, m, now);
      if |Submitted(m)| == 0 {
        NoGraduationsSame(t, m, now);
      }
    }
  }

  // ----------------------------------------------------------- graduations

  /** The consultation with that key (FindAsync). */
  function IsConsultation(id: Guid): Consultation -> bool
  {
    (c: Consultation) => c.id == id
  }

  /** AddGraduation: 404 for an unknown consultation; otherwise one
      graduation linked to it, saved on its own (no transaction; a refused
      save is an unhandled exception, a 500). */
  function AddGraduationSpec(t: Tables, id: Guid, m: CreateGraduationDto): Outcome<Graduation>
  {
    if FindIndex(t.consultas, IsConsultation(id)).None? then Outcome(t, Fail(NotFound))
    else
      var g := GraduationRow(m, id, t.nextId);
      var t' := t.(graduaciones := t.graduaciones + [g], nextId := t.nextId + 1);
      if DbConstraints(t') then Outcome(t', Ok(g)) else Outcome(t, Fail(ServerError))
  }

  method AddGraduation(ctx: ApplicationDbContext, id: Guid, m: CreateGraduationDto) returns (r: Result<Graduation>)
    requires ctx.Valid()
    modifies ctx
    ensures Outcome(ctx.Snapshot(), r) == AddGraduationSpec(old(ctx.Snapshot()), id, m)
    ensures ctx.Valid()
  {
    var found := FindIndex(ctx.consultas, IsConsultation(id));
    if found.None? {
      return Fail(NotFound);
    }
    var saved := ctx.Snapshot();
    var gradId := ctx.NewGuid();
    var montaje := if m.detallesMontaje.Some? then m.detallesMontaje.value else EmptyJson;
    var graduation := Graduation(gradId, id, m.tipoGraduacion, m.od, m.oi, Some(montaje));
    ctx.AddGraduation(graduation);
    assert graduation == GraduationRow(m, id, saved.nextId);
    assert ctx.Snapshot() == saved.(graduaciones := saved.graduaciones + [graduation], nextId := saved.nextId + 1);
    var ok := ctx.SaveChanges();
    if !ok {
      ctx.Restore(saved);
      return Fail(ServerError);
    }
    AddGraduationOutcome(saved, id, m);
    r := Ok(graduation);
  }

  /** An unknown consultation gives 404 and changes nothing; a known one
      gets exactly one new graduation, linked to it, with mounting details
      "{}" when absent, and is refused only when the type is too long. */
  lemma AddGraduationOutcome(t: Tables, id: Guid, m: CreateGraduationDto)
    requires Consistent(t)
    ensures var o := AddGraduationSpec(t, id, m);
            && (o.result == Fail(NotFound) <==> id !in ConsultaIds(t))
            && (o.result.Ok? <==> id in ConsultaIds(t) && FitsIn(m.tipoGraduacion, TipoGraduacionMaxLength))
            && (o.result.Fail? ==> o.tables == t)
            && (o.result.Ok? ==>
                  var g := o.result.value;
                  && o.tables.graduaciones == t.graduaciones + [g]
                  && o.tables.consultas == t.consultas
                  && g.consultaId == id && g.tipoGraduacion == m.tipoGraduacion
                  && g.od == m.od && g.oi == m.oi
                  && g.detallesMontaje == Some(if m.detallesMontaje.Some? then m.detallesMontaje.value else "{}")
                  && Consistent(o.tables))
  {
    var found := FindIndex(t.consultas, IsConsultation(id));
    if found.None? {
      forall c | c in t.consultas ensures c.id != id {
        var k :| 0 <= k < |t.consultas| && t.consultas[k] == c;
        assert !IsConsultation(id)(t.consultas[k]);
      }
    } else {
      assert t.consultas[found.value] in t.consultas;
      var g := GraduationRow(m, id, t.nextId);
      var t' := t.(graduaciones := t.graduaciones + [g], nextId := t.nextId + 1);
      assert g in t'.graduaciones;
      if FitsIn(m.tipoGraduacion, TipoGraduacionMaxLength) {
        AppendGraduationConsistent(t, g);
      }
    }
  }

  /** A graduation with the next key and a known consultation keeps the
      store consistent. */
  lemma AppendGraduationConsistent(t: Tables, g: Graduation)
    requires Consistent(t) && g.id == t.nextId && GraduationOk(t, g)
    ensures Consistent(t.(graduaciones := t.graduaciones + [g], nextId := t.nextId + 1))
  {
    var t' := t.(graduaciones := t.graduaciones + [g], nextId := t.nextId + 1);
    FreshGraduationKeys(t.graduaciones, [g], t.nextId);
    assert GraduacionIds(t') >= GraduacionIds(t);
    forall d | d in t'.detalleVentas ensures SaleDetailOk(t', d) {
      assert SaleDetailOk(t, d);
    }
  }

  lemma FreshGraduationKeys(prior: seq<Graduation>, gs: seq<Graduation>, bound: Guid)
    requires UniqueGraduacionIds(prior) && (forall x | x in prior :: x.id < bound)
    requires forall i | 0 <= i < |gs| :: gs[i].id == bound + i
    ensures UniqueGraduacionIds(prior + gs)
    ensures forall x | x in prior + gs :: x.id < bound + |gs|
  {
    var s := prior + gs;
    var n := |prior|;
    forall a, b | 0 <= a < b < |s| ensures s[a].id != s[b].id {
      if b >= n {
        assert s[b] == gs[b - n];
        if a < n {
          assert s[a] in prior;
        } else {
          assert s[a] == gs[a - n];
        }
      } else {
        assert s[a] == prior[a] && s[b] == prior[b];
      }
    }
    forall x | x in s ensures x.id < bound + |gs| {
      if x !in prior {
        var k :| 0 <= k < |gs| && gs[k] == x;
      }
    }
  }

  // ---------------------------------------------------------------- history

  /** A consultation with the graduations Include loads for it. */
  datatype ConsultationView = ConsultationView(consulta: Consultation, graduaciones: seq<Graduation>)

  function IsGraduationOf(id: Guid): Graduation -> bool
  {
    (g: Graduation) => g.consultaId == id
  }

  function IsVisitOf(patientId: Guid): Consultation -> bool
  {
    (c: Consultation) => c.pacienteId == patientId
  }

  /** OrderByDescending(c => c.Fecha) */
  predicate LaterVisitOrSame(a: Consultation, b: Consultation)
  {
    !DateTimeLess(a.fecha, b.fecha)
  }

  lemma LaterVisitOrSameIsPreorder(s: seq<Consultation>)
    ensures PreorderOn(LaterVisitOrSame, s)
  {
  }

  function WithItsGraduations(t: Tables): Consultation -> ConsultationView
  {
    (c: Consultation) => ConsultationView(c, Filter(t.graduaciones, IsGraduationOf(c.id)))
  }

  /** GetPatientConsultations: the patient's consultations, latest first,
      each with its graduations. */
  function GetPatientConsultations(t: Tables, patientId: Guid): seq<ConsultationView>
  {
    var visits := Filter(t.consultas, IsVisitOf(patientId));
    Map(SortBy(visits, LaterVisitOrSame), WithItsGraduations(t))
  }

  /** The history holds exactly the patient's consultations, each as often
      as stored, latest first, and each carries the graduations linked to
      it. */
  lemma GetPatientConsultationsSpec(t: Tables, patientId: Guid)
    ensures var r := GetPatientConsultations(t, patientId);
            var visits := Map(r, (v: ConsultationView) => v.consulta);
            && SortedBy(LaterVisitOrSame, visits)
            && multiset(visits) == multiset(Filter(t.consultas, IsVisitOf(patientId)))
            && (forall c :: c in visits <==> c in t.consultas && c.pacienteId == patientId)
            && (forall v :: v in r ==> v.graduaciones == Filter(t.graduaciones, IsGraduationOf(v.consulta.id)))
  {
    var mine := Filter(t.consultas, IsVisitOf(patientId));
    var sorted := SortBy(mine, LaterVisitOrSame);
    var r := GetPatientConsultations(t, patientId);
    var visits := Map(r, (v: ConsultationView) => v.consulta);
    assert visits == sorted;
    LaterVisitOrSameIsPreorder(mine);
    SortSorted(mine, LaterVisitOrSame);
    SortByMembers(mine, LaterVisitOrSame);
    forall c ensures c in mine <==> c in t.consultas && c.pacienteId == patientId {
      if c in mine {
        var k :| 0 <= k < |mine| && mine[k] == c;
      }
      if c in t.consultas && c.pacienteId == patientId {
        var k :| 0 <= k < |t.consultas| && t.consultas[k] == c;
      }
    }
  }

  // ----------------------------------------------------------------- delete

  function NotGraduationOf(id: Guid): Graduation -> bool
  {
    (g: Graduation) => g.consultaId != id
  }

  /** The database side of the delete: the consultation goes, and its
      graduations go with it (the required foreign key cascades). */
  function WithoutConsultation(t: Tables, i: nat): Tables
    requires i < |t.consultas|
  {
    t.(consultas := RemoveAt(t.consultas, i),
       graduaciones := Filter(t.graduaciones, NotGraduationOf(t.consultas[i].id)))
  }

  /** DeleteConsultation: 404 for an unknown key; a delete the database
      refuses is caught and answered 400 with the rows left in place. */
  function DeleteConsultationSpec(t: Tables, id: Guid): Outcome<()>
  {
    match FindIndex(t.consultas, IsConsultation(id))
    case None => Outcome(t, Fail(NotFound))
    case Some(i) =>
      var t' := WithoutConsultation(t, i);
      if DbConstraints(t') then Outcome(t', Ok(())) else Outcome(t, Fail(BadRequest))
  }

  method DeleteConsultation(ctx: ApplicationDbContext, id: Guid) returns (r: Result<()>)
    requires ctx.Valid()
    modifies ctx
    ensures Outcome(ctx.Snapshot(), r) == DeleteConsultationSpec(old(ctx.Snapshot()), id)
    ensures ctx.Valid()
  {
    var found := FindIndex(ctx.consultas, IsConsultation(id));
    if found.None? {
      return Fail(NotFound);
    }
    var saved := ctx.Snapshot();
    var i := found.value;
    ctx.graduaciones := Filter(ctx.graduaciones, NotGraduationOf(ctx.consultas[i].id));
    ctx.consultas := RemoveAt(ctx.consultas, i);
    var ok := ctx.SaveChanges();
    if !ok {
      ctx.Restore(saved);
      return Fail(BadRequest);
    }
    DeleteConsultationOkIff(saved, id);
    r := Ok(());
  }

  /** What keeps the consultation in place: a sale made at it, or a sale
      line naming one of its graduations. */
  predicate ConsultationReferenced(t: Tables, id: Guid)
  {
    || (exists s :: s in t.ventas && s.consultaId == Some(id))
    || (exists d, g :: d in t.detalleVentas && g in t.graduaciones && g.consultaId == id && d.graduacionId == Some(g.id))
  }

  lemma RemoveConsultationRow(s: seq<Consultation>, i: nat)
    requires UniqueConsultaIds(s) && i < |s|
    ensures var s' := RemoveAt(s, i);
            && (set c | c in s' :: c.id) == (set c | c in s :: c.id) - {s[i].id}
            && UniqueConsultaIds(s')
            && (forall c | c in s' :: c in s)
  {
    var id := s[i].id;
    var s' := RemoveAt(s, i);
    forall x | x in s' ensures x in s && x.id != id {
      var k :| 0 <= k < |s'| && s'[k] == x;
      var k0 := if k < i then k else k + 1;
      assert s[k0] == x;
    }
    forall x | x in s && x.id != id ensures x in s' {
      var k :| 0 <= k < |s| && s[k] == x;
      var k1 := if k < i then k else k - 1;
      assert s'[k1] == x;
    }
    forall a, b | 0 <= a < b < |s'| ensures s'[a].id != s'[b].id {
      var a0 := if a < i then a else a + 1;
      var b0 := if b < i then b else b + 1;
      assert s'[a] == s[a0] && s'[b] == s[b0];
    }
  }

  /** Dropping rows keeps the remaining keys unique. */
  lemma {:induction false} FilterGraduationsUnique(s: seq<Graduation>, keep: Graduation -> bool)
    requires UniqueGraduacionIds(s)
    ensures UniqueGraduacionIds(Filter(s, keep))
  {
    if s != [] {
      var tail := s[1..];
      TailGraduationsUnique(s);
      FilterGraduationsUnique(tail, keep);
      var rest := Filter(tail, keep);
      if keep(s[0]) {
        HeadKeyNotInTail(s, rest);
        ConsGraduationUnique(s[0], rest);
        assert Filter(s, keep) == [s[0]] + rest;
      } else {
        assert Filter(s, keep) == rest;
      }
    }
  }

  lemma TailGraduationsUnique(s: seq<Graduation>)
    requires s != [] && UniqueGraduacionIds(s)
    ensures UniqueGraduacionIds(s[1..])
  {
    var tail := s[1..];
    forall a, b | 0 <= a < b < |tail| ensures tail[a].id != tail[b].id {
      assert tail[a] == s[a + 1] && tail[b] == s[b + 1];
    }
  }

  lemma HeadKeyNotInTail(s: seq<Graduation>, rest: seq<Graduation>)
    requires s != [] && UniqueGraduacionIds(s)
    requires forall x | x in rest :: x in s[1..]
    ensures forall x | x in rest :: x.id != s[0].id
  {
    forall x | x in rest ensures x.id != s[0].id {
      var k :| 0 <= k < |s[1..]| && s[1..][k] == x;
      assert s[k + 1] == x;
    }
  }

  lemma ConsGraduationUnique(g: Graduation, rest: seq<Graduation>)
    requires UniqueGraduacionIds(rest) && forall x | x in rest :: x.id != g.id
    ensures UniqueGraduacionIds([g] + rest)
  {
    var r := [g] + rest;
    forall a, b | 0 <= a < b < |r| ensures r[a].id != r[b].id {
      assert r[b] == rest[b - 1];
      if a > 0 {
        assert r[a] == rest[a - 1];
      } else {
        assert rest[b - 1] in rest;
      }
    }
  }


  /** The graduations that survive the cascade are exactly those of other
      consultations. */
  lemma CascadeKeeps(t: Tables, id: Guid)
    ensures forall g :: g in Filter(t.graduaciones, NotGraduationOf(id)) <==> g in t.graduaciones && g.consultaId != id
  {
    var gs := Filter(t.graduaciones, NotGraduationOf(id));
    forall g | g in t.graduaciones && g.consultaId != id ensures g in gs {
      var k :| 0 <= k < |t.graduaciones| && t.graduaciones[k] == g;
      assert NotGraduationOf(id)(t.graduaciones[k]);
    }
    forall g | g in gs ensures g in t.graduaciones && g.consultaId != id {
      var k :| 0 <= k < |gs| && gs[k] == g;
    }
  }

  /** A dependent sale, or a line naming one of the cascaded graduations,
      makes the database refuse the delete. */
  lemma DeleteRefused(t: Tables, i: nat)
    requires i < |t.consultas| && UniqueConsultaIds(t.consultas) && UniqueGraduacionIds(t.graduaciones)
    requires ConsultationReferenced(t, t.consultas[i].id)
    ensures !DbConstraints(WithoutConsultation(t, i))
  {
    var id := t.consultas[i].id;
    var t' := WithoutConsultation(t, i);
    RemoveConsultationRow(t.consultas, i);
    assert ConsultaIds(t') == ConsultaIds(t) - {id};
    if exists s :: s in t.ventas && s.consultaId == Some(id) {
      var s :| s in t.ventas && s.consultaId == Some(id);
      assert !SaleOk(t', s);
    } else {
      var d, g :| d in t.detalleVentas && g in t.graduaciones && g.consultaId == id && d.graduacionId == Some(g.id);
      CascadeKeeps(t, id);
      assert g.id !in GraduacionIds(t') by {
        forall x | x in t'.graduaciones ensures x.id != g.id {
          assert x.consultaId != id;
          var a :| 0 <= a < |t.graduaciones| && t.graduaciones[a] == x;
          var b :| 0 <= b < |t.graduaciones| && t.graduaciones[b] == g;
          assert a != b;
        }
      }
      assert d in t'.detalleVentas && !SaleDetailOk(t', d);
    }
  }

  /** With nothing depending on it, the consultation and its graduations
      go and the database stays consistent. */
  lemma DeleteAccepted(t: Tables, i: nat)
    requires Consistent(t) && i < |t.consultas|
    requires !ConsultationReferenced(t, t.consultas[i].id)
    ensures Consistent(WithoutConsultation(t, i))
    ensures t.consultas[i].id !in ConsultaIds(WithoutConsultation(t, i))
    ensures forall g | g in WithoutConsultation(t, i).graduaciones :: g.consultaId != t.consultas[i].id
  {
    var id := t.consultas[i].id;
    var t' := WithoutConsultation(t, i);
    RemoveConsultationRow(t.consultas, i);
    assert ConsultaIds(t') == ConsultaIds(t) - {id};
    CascadeKeeps(t, id);
    FilterGraduationsUnique(t.graduaciones, NotGraduationOf(id));
    forall c | c in t'.consultas ensures ConsultationOk(t', c) {
      assert ConsultationOk(t, c);
    }
    forall g | g in t'.graduaciones ensures GraduationOk(t', g) {
      assert GraduationOk(t, g);
    }
    forall s | s in t'.ventas ensures SaleOk(t', s) {
      assert SaleOk(t, s);
    }
    forall d | d in t'.detalleVentas ensures SaleDetailOk(t', d) {
      assert SaleDetailOk(t, d);
      if d.graduacionId.Some? {
        var g :| g in t.graduaciones && g.id == d.graduacionId.value;
        assert g in t'.graduaciones;
      }
    }
    assert KeysUnique(t');
    assert IdsBelow(t');
  }

  /** From a consistent database, deleting a stored consultation succeeds
      exactly when no sale depends on it (through its consultation key or
      through a line naming one of its graduations); a success removes it
      and its graduations and leaves the database consistent, a refusal
      changes nothing and answers 400. */
  lemma DeleteConsultationOkIff(t: Tables, id: Guid)
    requires Consistent(t)
    requires exists k :: 0 <= k < |t.consultas| && t.consultas[k].id == id
    ensures var o := DeleteConsultationSpec(t, id);
            && (o.result == Ok(()) <==> !ConsultationReferenced(t, id))
            && (o.result.Fail? ==> o.tables == t && o.result == Fail(BadRequest))
            && (o.result.Ok? ==> id !in ConsultaIds(o.tables)
                                 && (forall g | g in o.tables.graduaciones :: g.consultaId != id)
                                 && Consistent(o.tables))
  {
    var k0 :| 0 <= k0 < |t.consultas| && t.consultas[k0].id == id;
    assert IsConsultation(id)(t.consultas[k0]);
    var i := FindIndex(t.consultas, IsConsultation(id)).value;
    assert t.consultas[i].id == id;
    if ConsultationReferenced(t, id) {
      DeleteRefused(t, i);
    } else {
      DeleteAccepted(t, i);
    }
  }
}
