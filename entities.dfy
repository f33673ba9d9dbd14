/** The stored rows (one datatype per table) and the request and response
    shapes the controllers exchange. Nullable columns and properties are
    Options; decimal columns are exact reals; the opaque JSON columns are
    strings. */
module Entities {
  import opened Common
  import opened Dates

  type UserId = string

  // ------------------------------------------------------------------ rows

  datatype Patient = Patient(
    id: Guid,
    nombre: string,
    apellidoPaterno: Option<string>,
    apellidoMaterno: Option<string>,
    fechaNacimiento: Option<Date>,
    telefono: Option<string>,
    email: Option<string>,
    direccion: Option<string>,
    ocupacion: Option<string>,
    notas: Option<string>,
    estaActivo: bool,
    fechaRegistro: DateTime,
    metadata: Option<string>)

  datatype Consultation = Consultation(
    id: Guid,
    pacienteId: Guid,
    fecha: DateTime,
    motivoConsulta: Option<string>,
    observaciones: Option<string>,
    costoServicio: Option<real>,
    estadoFinanciero: Option<string>,
    detallesClinicos: Option<string>,
    usuarioId: Option<UserId>)

  /** One eye's refraction: sphere, cylinder, axis and addition. */
  datatype EyeRx = EyeRx(esfera: Option<real>, cilindro: Option<real>, eje: Option<int>, adicion: Option<real>)

  datatype Graduation = Graduation(
    id: Guid,
    consultaId: Guid,
    tipoGraduacion: Option<string>,
    od: EyeRx,
    oi: EyeRx,
    detallesMontaje: Option<string>)

  datatype Sale = Sale(
    id: Guid,
    folioFisico: Option<string>,
    fecha: DateTime,
    consultaId: Option<Guid>,
    totalVenta: Option<real>,
    saldoPendiente: Option<real>,
    estado: Option<string>,
    observacionesGenerales: Option<string>,
    motivoCancelacion: Option<string>,
    usuarioId: Option<UserId>)

  datatype SaleDetail = SaleDetail(
    id: Guid,
    ventaId: Guid,
    pacienteId: Option<Guid>,
    graduacionId: Option<Guid>,
    dpOd: Option<real>,
    dpOi: Option<real>,
    alturaOblea: Option<real>,
    catalogoId: Option<Guid>,
    descripcionManual: Option<string>,
    precioAplicado: Option<real>)

  datatype Payment = Payment(
    id: Guid,
    ventaId: Option<Guid>,
    monto: real,
    fechaPago: DateTime,
    metodoPago: Option<string>,
    usuarioId: Option<UserId>)

  datatype ConfiguracionSistema = ConfiguracionSistema(
    id: Guid,
    nombreOptica: string,
    eslogan: Option<string>,
    logoUrl: Option<string>,
    colorPrimario: string,
    colorSecundario: string,
    colorAcento: string,
    colorTextoBase: string,
    direccion: Option<string>,
    telefono: Option<string>,
    emailContacto: Option<string>,
    ultimaActualizacion: DateTime)

  datatype ApplicationUser = ApplicationUser(
    id: UserId,
    userName: Option<string>,
    email: Option<string>,
    nombreCompleto: string,
    nombreEsquema: Option<string>,
    estaActivo: bool,
    emailConfirmed: bool,
    fechaRegistro: DateTime)

  // ------------------------------------------------------ status constants

  const StatusActive: string := "Activa"
  const StatusCancelled: string := "Cancelada"
  const StatusPaid: string := "Pagada"
  const StatusPending: string := "Pendiente"

  // ---------------------------------------------------------- column limits

  const MotivoConsultaMaxLength: nat := 50
  const EstadoFinancieroMaxLength: nat := 20
  const TipoGraduacionMaxLength: nat := 30
  const FolioFisicoMaxLength: nat := 20
  const EstadoMaxLength: nat := 20
  const MetodoPagoMaxLength: nat := 50

  predicate FitsIn(s: Option<string>, n: nat)
  {
    s.None? || |s.value| <= n
  }

  // ------------------------------------------------------------------ DTOs

  /** A patient as the API returns it. The class in the source declares no
      birth-date property; fechaNacimiento is None for every projection
      written that way (the JSON has no such key) and carries the stored
      value only where a projection assigns it. */
  datatype PatientDto = PatientDto(
    id: Guid,
    nombre: string,
    apellidoPaterno: Option<string>,
    apellidoMaterno: Option<string>,
    telefono: Option<string>,
    email: Option<string>,
    direccion: Option<string>,
    fechaNacimiento: Option<Date>,
    edad: Option<int>,
    ocupacion: Option<string>,
    notas: Option<string>,
    fechaRegistro: DateTime,
    estaActivo: bool)

  datatype CreatePatientDto = CreatePatientDto(
    nombre: string,
    apellidoPaterno: Option<string>,
    apellidoMaterno: Option<string>,
    fechaNacimiento: Option<Date>,
    telefono: Option<string>,
    email: Option<string>,
    direccion: Option<string>,
    ocupacion: Option<string>,
    notas: Option<string>,
    fechaRegistro: Option<DateTime>)

  /** UpdatePatientDto extends CreatePatientDto with EstaActivo (default true). */
  datatype UpdatePatientDto = UpdatePatientDto(fields: CreatePatientDto, estaActivo: bool)

  datatype CreateSaleDetailDto = CreateSaleDetailDto(
    pacienteId: Option<Guid>,
    graduacionId: Option<Guid>,
    dpOd: Option<real>,
    dpOi: Option<real>,
    alturaOblea: Option<real>,
    descripcionManual: Option<string>,
    precioAplicado: Option<real>,
    catalogoId: Option<Guid>)

  datatype CreatePaymentDto = CreatePaymentDto(
    monto: real,
    fechaPago: Option<DateTime>,
    metodoPago: Option<string>,
    usuarioId: Option<string>)

  datatype CreateSaleDto = CreateSaleDto(
    folioFisico: Option<string>,
    fecha: Option<DateTime>,
    consultaId: Option<Guid>,
    totalVenta: Option<real>,
    saldoPendiente: Option<real>,
    observacionesGenerales: Option<string>,
    usuarioId: Option<string>,
    detalles: seq<CreateSaleDetailDto>,
    abonosIniciales: seq<CreatePaymentDto>)

  /** The JSON of a Dictionary<string, object> is opaque: only whether it
      was supplied matters, and its serialised text when it was. */
  datatype CreateGraduationDto = CreateGraduationDto(
    tipoGraduacion: Option<string>,
    od: EyeRx,
    oi: EyeRx,
    detallesMontaje: Option<string>)

  datatype CreateConsultationDto = CreateConsultationDto(
    pacienteId: Guid,
    fecha: Option<DateTime>,
    motivoConsulta: Option<string>,
    observaciones: Option<string>,
    costoServicio: Option<real>,
    estadoFinanciero: Option<string>,
    detallesClinicos: Option<string>,
    usuarioId: Option<UserId>,
    graduaciones: Option<seq<CreateGraduationDto>>)

  datatype UserDto = UserDto(
    id: UserId,
    email: string,
    nombreCompleto: string,
    nombreEsquema: string,
    rol: string,
    estaActivo: bool)

  datatype CreateUserDto = CreateUserDto(
    email: string,
    password: string,
    nombreCompleto: string,
    nombreEsquema: Option<string>,
    rol: string)

  datatype UpdateUserDto = UpdateUserDto(
    email: string,
    nombreCompleto: string,
    estaActivo: bool,
    rol: Option<string>,
    nombreEsquema: Option<string>)

  // ---------------------------------------------------------------- orders

  /** OrderByDescending(p => p.FechaRegistro): a may precede b when a was
      not registered before b. */
  predicate NewerOrSame(a: Patient, b: Patient)
  {
    !DateTimeLess(a.fechaRegistro, b.fechaRegistro)
  }

  lemma NewerOrSameIsPreorder(s: seq<Patient>)
    ensures PreorderOn(NewerOrSame, s)
  {
  }
}
