/** The database behind ApplicationDbContext: one sequence of rows per
    table (in the order a query without ORDER BY returns them), the
    Identity user and role tables, and a counter standing in for
    Guid.NewGuid. SaveChanges is modelled by the constraints PostgreSQL
    enforces (foreign keys and column lengths); a transaction by keeping the
    snapshot taken when it began. */
module Data {
  import opened Common
  import opened Dates
  import opened Entities

  datatype Tables = Tables(
    pacientes: seq<Patient>,
    consultas: seq<Consultation>,
    graduaciones: seq<Graduation>,
    ventas: seq<Sale>,
    detalleVentas: seq<SaleDetail>,
    abonos: seq<Payment>,
    configuraciones: seq<ConfiguracionSistema>,
    users: seq<ApplicationUser>,
    userRoles: map<UserId, seq<string>>,
    roles: set<string>,
    nextId: nat)

  // ------------------------------------------------------------ key sets

  // Each key set is a function of its table's rows only, so a change to
  // one table leaves the key sets of the others untouched.

  function PatientKeys(ps: seq<Patient>): set<Guid>
  {
    set p | p in ps :: p.id
  }

  function ConsultaKeys(cs: seq<Consultation>): set<Guid>
  {
    set c | c in cs :: c.id
  }

  function GraduacionKeys(gs: seq<Graduation>): set<Guid>
  {
    set g | g in gs :: g.id
  }

  function VentaKeys(vs: seq<Sale>): set<Guid>
  {
    set s | s in vs :: s.id
  }

  function UserKeys(us: seq<ApplicationUser>): set<UserId>
  {
    set u | u in us :: u.id
  }

  function PatientIds(t: Tables): set<Guid>
  {
    PatientKeys(t.pacientes)
  }

  function ConsultaIds(t: Tables): set<Guid>
  {
    ConsultaKeys(t.consultas)
  }

  function GraduacionIds(t: Tables): set<Guid>
  {
    GraduacionKeys(t.graduaciones)
  }

  function VentaIds(t: Tables): set<Guid>
  {
    VentaKeys(t.ventas)
  }

  function UserIds(t: Tables): set<UserId>
  {
    UserKeys(t.users)
  }

  predicate RefOk<K>(k: Option<K>, keys: set<K>)
  {
    k.None? || k.value in keys
  }

  // ------------------------------------------------- database constraints

  // One predicate per row, over the key sets it refers to; the table-wide
  // forms below take the rows and the key sets, not the whole store.

  predicate ConsultationRowOk(c: Consultation, pacientes: set<Guid>, users: set<UserId>)
  {
    && c.pacienteId in pacientes
    && RefOk(c.usuarioId, users)
    && FitsIn(c.motivoConsulta, MotivoConsultaMaxLength)
    && FitsIn(c.estadoFinanciero, EstadoFinancieroMaxLength)
  }

  predicate GraduationRowOk(g: Graduation, consultas: set<Guid>)
  {
    g.consultaId in consultas && FitsIn(g.tipoGraduacion, TipoGraduacionMaxLength)
  }

  predicate SaleRowOk(s: Sale, consultas: set<Guid>, users: set<UserId>)
  {
    && RefOk(s.consultaId, consultas)
    && RefOk(s.usuarioId, users)
    && FitsIn(s.folioFisico, FolioFisicoMaxLength)
    && FitsIn(s.estado, EstadoMaxLength)
  }

  predicate SaleDetailRowOk(d: SaleDetail, ventas: set<Guid>, pacientes: set<Guid>, graduaciones: set<Guid>)
  {
    && d.ventaId in ventas
    && RefOk(d.pacienteId, pacientes)
    && RefOk(d.graduacionId, graduaciones)
  }

  predicate PaymentRowOk(a: Payment, ventas: set<Guid>, users: set<UserId>)
  {
    && RefOk(a.ventaId, ventas)
    && RefOk(a.usuarioId, users)
    && FitsIn(a.metodoPago, MetodoPagoMaxLength)
  }

  predicate ConsultationOk(t: Tables, c: Consultation)
  {
    ConsultationRowOk(c, PatientIds(t), UserIds(t))
  }

  predicate GraduationOk(t: Tables, g: Graduation)
  {
    GraduationRowOk(g, ConsultaIds(t))
  }

  predicate SaleOk(t: Tables, s: Sale)
  {
    SaleRowOk(s, ConsultaIds(t), UserIds(t))
  }

  predicate SaleDetailOk(t: Tables, d: SaleDetail)
  {
    SaleDetailRowOk(d, VentaIds(t), PatientIds(t), GraduacionIds(t))
  }

  predicate PaymentOk(t: Tables, a: Payment)
  {
    PaymentRowOk(a, VentaIds(t), UserIds(t))
  }

  predicate ConsultationsOk(cs: seq<Consultation>, pacientes: set<Guid>, users: set<UserId>)
  {
    forall c | c in cs :: ConsultationRowOk(c, pacientes, users)
  }

  predicate GraduationsOk(gs: seq<Graduation>, consultas: set<Guid>)
  {
    forall g | g in gs :: GraduationRowOk(g, consultas)
  }

  predicate SalesOk(vs: seq<Sale>, consultas: set<Guid>, users: set<UserId>)
  {
    forall s | s in vs :: SaleRowOk(s, consultas, users)
  }

  predicate SaleDetailsOk(ds: seq<SaleDetail>, ventas: set<Guid>, pacientes: set<Guid>, graduaciones: set<Guid>)
  {
    forall d | d in ds :: SaleDetailRowOk(d, ventas, pacientes, graduaciones)
  }

  predicate PaymentsOk(as_: seq<Payment>, ventas: set<Guid>, users: set<UserId>)
  {
    forall a | a in as_ :: PaymentRowOk(a, ventas, users)
  }

  /** Every user with roles is stored, and every role it holds exists. */
  predicate RoleAssignmentsOk(userRoles: map<UserId, seq<string>>, users: set<UserId>, roles: set<string>)
  {
    forall u | u in userRoles :: u in users && forall r | r in userRoles[u] :: r in roles
  }

  predicate UserRolesOk(t: Tables)
  {
    RoleAssignmentsOk(t.userRoles, UserIds(t), t.roles)
  }

  predicate UniquePatientIds(s: seq<Patient>)
  {
    forall i, j | 0 <= i < j < |s| :: s[i].id != s[j].id
  }

  predicate UniqueConsultaIds(s: seq<Consultation>)
  {
    forall i, j | 0 <= i < j < |s| :: s[i].id != s[j].id
  }

  predicate UniqueGraduacionIds(s: seq<Graduation>)
  {
    forall i, j | 0 <= i < j < |s| :: s[i].id != s[j].id
  }

  predicate UniqueVentaIds(s: seq<Sale>)
  {
    forall i, j | 0 <= i < j < |s| :: s[i].id != s[j].id
  }

  predicate UniqueDetailIds(s: seq<SaleDetail>)
  {
    forall i, j | 0 <= i < j < |s| :: s[i].id != s[j].id
  }

  predicate UniqueAbonoIds(s: seq<Payment>)
  {
    forall i, j | 0 <= i < j < |s| :: s[i].id != s[j].id
  }

  predicate UniqueConfigIds(s: seq<ConfiguracionSistema>)
  {
    forall i, j | 0 <= i < j < |s| :: s[i].id != s[j].id
  }

  predicate UniqueUserIds(s: seq<ApplicationUser>)
  {
    forall i, j | 0 <= i < j < |s| :: s[i].id != s[j].id
  }

  /** Primary keys are unique in every table. */
  predicate KeysUnique(t: Tables)
  {
    && UniquePatientIds(t.pacientes)
    && UniqueConsultaIds(t.consultas)
    && UniqueGraduacionIds(t.graduaciones)
    && UniqueVentaIds(t.ventas)
    && UniqueDetailIds(t.detalleVentas)
    && UniqueAbonoIds(t.abonos)
    && UniqueConfigIds(t.configuraciones)
    && UniqueUserIds(t.users)
  }

  /** What SaveChanges has the database check: primary keys are unique,
      every foreign key resolves and every bounded column fits. */
  predicate DbConstraints(t: Tables)
  {
    && KeysUnique(t)
    && ConsultationsOk(t.consultas, PatientIds(t), UserIds(t))
    && GraduationsOk(t.graduaciones, ConsultaIds(t))
    && SalesOk(t.ventas, ConsultaIds(t), UserIds(t))
    && SaleDetailsOk(t.detalleVentas, VentaIds(t), PatientIds(t), GraduacionIds(t))
    && PaymentsOk(t.abonos, VentaIds(t), UserIds(t))
    && RoleAssignmentsOk(t.userRoles, UserIds(t), t.roles)
  }

  /** Every generated key is below the counter, so the next one is fresh. */
  predicate IdsBelow(t: Tables)
  {
    && (forall p | p in t.pacientes :: p.id < t.nextId)
    && (forall c | c in t.consultas :: c.id < t.nextId)
    && (forall g | g in t.graduaciones :: g.id < t.nextId)
    && (forall s | s in t.ventas :: s.id < t.nextId)
    && (forall d | d in t.detalleVentas :: d.id < t.nextId)
    && (forall a | a in t.abonos :: a.id < t.nextId)
    && (forall k | k in t.configuraciones :: k.id < t.nextId)
  }

  predicate Consistent(t: Tables)
  {
    IdsBelow(t) && DbConstraints(t)
  }

  /** What an action leaves in the database, and what it answers. */
  datatype Outcome<T> = Outcome(tables: Tables, result: Result<T>)

  // -------------------------------------------------------------- context

  class ApplicationDbContext {
    var pacientes: seq<Patient>
    var consultas: seq<Consultation>
    var graduaciones: seq<Graduation>
    var ventas: seq<Sale>
    var detalleVentas: seq<SaleDetail>
    var abonos: seq<Payment>
    var configuraciones: seq<ConfiguracionSistema>
    var users: seq<ApplicationUser>
    var userRoles: map<UserId, seq<string>>
    var roles: set<string>
    var nextId: nat

    function Snapshot(): Tables
      reads this
    {
      Tables(pacientes, consultas, graduaciones, ventas, detalleVentas, abonos,
             configuraciones, users, userRoles, roles, nextId)
    }

    predicate Valid()
      reads this
    {
      Consistent(Snapshot())
    }

    constructor (t: Tables)
      ensures Snapshot() == t
    {
      pacientes, consultas, graduaciones := t.pacientes, t.consultas, t.graduaciones;
      ventas, detalleVentas, abonos := t.ventas, t.detalleVentas, t.abonos;
      configuraciones, users, userRoles := t.configuraciones, t.users, t.userRoles;
      roles, nextId := t.roles, t.nextId;
    }

    /** Rolling a transaction back to the snapshot taken when it began. */
    method Restore(t: Tables)
      modifies this
      ensures Snapshot() == t
    {
      pacientes, consultas, graduaciones := t.pacientes, t.consultas, t.graduaciones;
      ventas, detalleVentas, abonos := t.ventas, t.detalleVentas, t.abonos;
      configuraciones, users, userRoles := t.configuraciones, t.users, t.userRoles;
      roles, nextId := t.roles, t.nextId;
    }

    /** Guid.NewGuid, or the key EF Core generates on Add. */
    method NewGuid() returns (id: Guid)
      modifies this
      ensures id == old(nextId)
      ensures Snapshot() == old(Snapshot()).(nextId := old(nextId) + 1)
    {
      id := nextId;
      nextId := nextId + 1;
    }

    /** SaveChangesAsync: succeeds iff the database accepts the state. */
    method SaveChanges() returns (ok: bool)
      ensures ok == DbConstraints(Snapshot())
    {
      ok := DbConstraints(Snapshot());
    }

    method AddPatient(p: Patient)
      modifies this
      ensures Snapshot() == old(Snapshot()).(pacientes := old(pacientes) + [p])
    {
      pacientes := pacientes + [p];
    }

    method AddConsultation(c: Consultation)
      modifies this
      ensures Snapshot() == old(Snapshot()).(consultas := old(consultas) + [c])
    {
      consultas := consultas + [c];
    }

    method AddGraduation(g: Graduation)
      modifies this
      ensures Snapshot() == old(Snapshot()).(graduaciones := old(graduaciones) + [g])
    {
      graduaciones := graduaciones + [g];
    }

    method AddSale(s: Sale)
      modifies this
      ensures Snapshot() == old(Snapshot()).(ventas := old(ventas) + [s])
    {
      ventas := ventas + [s];
    }

    method AddSaleDetail(d: SaleDetail)
      modifies this
      ensures Snapshot() == old(Snapshot()).(detalleVentas := old(detalleVentas) + [d])
    {
      detalleVentas := detalleVentas + [d];
    }

    method AddPayment(a: Payment)
      modifies this
      ensures Snapshot() == old(Snapshot()).(abonos := old(abonos) + [a])
    {
      abonos := abonos + [a];
    }

    method AddConfiguracion(k: ConfiguracionSistema)
      modifies this
      ensures Snapshot() == old(Snapshot()).(configuraciones := old(configuraciones) + [k])
    {
      configuraciones := configuraciones + [k];
    }
  }
}
