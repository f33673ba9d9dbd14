/** The system configuration endpoints: reading the first configuration
    row, the upsert that edits the row the request names (or the first one,
    or a new one when there is none), and the names of the schemas a Root
    may pick from. */
module ConfiguracionController {
  import opened Common
  import opened Dates
  import opened Entities
  import opened Data
  import opened UserAuthorization

  // ---------------------------------------------------------- authorization

  /** The caller as the authorization filter sees it: None without a valid
      token, otherwise the role claims the token carries. */
  type Caller = Option<seq<string>>

  /** [Authorize], or [Authorize(Roles = ...)] when roles are given: 401
      without a token, 403 when the token holds none of the roles, and no
      objection otherwise; the action runs only in that last case. */
  function Authorize(caller: Caller, roles: Option<set<string>>): (r: Option<Failure>)
    ensures r.None? <==> caller.Some? && (roles.Some? ==> exists role :: role in caller.value && role in roles.value)
    ensures r == Some(Unauthorized) <==> caller.None?
    ensures r.Some? ==> r.value == Unauthorized || r.value == Forbidden
  {
    if caller.None? then Some(Unauthorized)
    else if roles.None? || exists role :: role in caller.value && role in roles.value then None
    else Some(Forbidden)
  }

  // ------------------------------------------------------------------ read

  /** GetConfiguracion: for an authenticated caller the first row, or 404
      when the table is empty. */
  function GetConfiguracion(t: Tables, caller: Caller): (r: Result<ConfiguracionSistema>)
    ensures caller.None? ==> r == Fail(Unauthorized)
    ensures caller.Some? ==> (r.Fail? <==> t.configuraciones == [])
    ensures caller.Some? && r.Fail? ==> r.failure == NotFound
    ensures r.Ok? ==> r.value == t.configuraciones[0]
  {
    if caller.None? then Fail(Unauthorized)
    else if t.configuraciones == [] then Fail(NotFound) else Ok(t.configuraciones[0])
  }

  // ---------------------------------------------------------------- upsert

  /** A new ConfiguracionSistema with the model's defaults. */
  function NewConfiguracion(id: Guid, now: DateTime): ConfiguracionSistema
  {
    ConfiguracionSistema(id, "Óptica Galileo", None, None, "#007bff", "#6c757d", "#28a745", "#212529",
                         None, None, None, now)
  }

  /** The display fields the update copies from the request, and the time
      of the change; the id is left alone. */
  function ApplyConfiguracion(c: ConfiguracionSistema, m: ConfiguracionSistema, now: DateTime): ConfiguracionSistema
  {
    c.(nombreOptica := m.nombreOptica, eslogan := m.eslogan, logoUrl := m.logoUrl,
       colorPrimario := m.colorPrimario, colorSecundario := m.colorSecundario,
       colorAcento := m.colorAcento, colorTextoBase := m.colorTextoBase,
       direccion := m.direccion, telefono := m.telefono, emailContacto := m.emailContacto,
       ultimaActualizacion := now)
  }

  /** The display fields of two configurations agree. */
  predicate SameDisplay(a: ConfiguracionSistema, b: ConfiguracionSistema)
  {
    && a.nombreOptica == b.nombreOptica && a.eslogan == b.eslogan && a.logoUrl == b.logoUrl
    && a.colorPrimario == b.colorPrimario && a.colorSecundario == b.colorSecundario
    && a.colorAcento == b.colorAcento && a.colorTextoBase == b.colorTextoBase
    && a.direccion == b.direccion && a.telefono == b.telefono && a.emailContacto == b.emailContacto
  }

  function HasConfigId(id: Guid): ConfiguracionSistema -> bool
  {
    (c: ConfiguracionSistema) => c.id == id
  }

  /** FindAsync on the request's id, when it is not the empty Guid. */
  function FindById(t: Tables, id: Guid): Option<nat>
  {
    if id != EmptyGuid then FindIndex(t.configuraciones, HasConfigId(id)) else None
  }

  /** The row the update edits: the one with the request's id, else the
      first row, else none (a new row is created). */
  function UpsertTarget(t: Tables, id: Guid): (r: Option<nat>)
    ensures r.Some? ==> r.value < |t.configuraciones|
    ensures r.None? <==> t.configuraciones == []
  {
    var byId := FindById(t, id);
    if byId.Some? then byId
    else if t.configuraciones != [] then Some(0)
    else None
  }

  /** The upsert the action performs once the request is admitted. */
  function UpsertSpec(t: Tables, m: ConfiguracionSistema, now: DateTime): Outcome<ConfiguracionSistema>
  {
    match UpsertTarget(t, m.id)
    case Some(i) =>
      var c := ApplyConfiguracion(t.configuraciones[i], m, now);
      Outcome(t.(configuraciones := t.configuraciones[i := c]), Ok(c))
    case None =>
      var c := ApplyConfiguracion(NewConfiguracion(t.nextId, now), m, now);
      Outcome(t.(configuraciones := t.configuraciones + [c], nextId := t.nextId + 1), Ok(c))
  }

  /** The fields model validation requires before the action runs: the
      [Required] name, and the colours, non-nullable strings that the
      nullable context marks required as well. */
  predicate ConfiguracionValid(m: ConfiguracionSistema)
  {
    && Required(m.nombreOptica)
    && Required(m.colorPrimario) && Required(m.colorSecundario)
    && Required(m.colorAcento) && Required(m.colorTextoBase)
  }

  /** UpdateConfiguracion: Root and Admin only; a request failing model
      validation is answered 400; otherwise the upsert. */
  function UpdateConfiguracionSpec(t: Tables, caller: Caller, m: ConfiguracionSistema, now: DateTime)
    : Outcome<ConfiguracionSistema>
  {
    var denied := Authorize(caller, Some({RootRole, AdminRole}));
    if denied.Some? then Outcome(t, Fail(denied.value))
    else if !ConfiguracionValid(m) then Outcome(t, Fail(BadRequest))
    else UpsertSpec(t, m, now)
  }

  /** Only a Root or Admin caller with a valid request changes anything:
      every refusal leaves the store as it was, and an admitted request is
      the upsert and always succeeds. */
  lemma UpdateConfiguracionGuards(t: Tables, caller: Caller, m: ConfiguracionSistema, now: DateTime)
    ensures var o := UpdateConfiguracionSpec(t, caller, m, now);
            && (o.result.Ok? <==> caller.Some? && (RootRole in caller.value || AdminRole in caller.value)
                                  && ConfiguracionValid(m))
            && (o.result.Fail? ==> o.tables == t)
            && (o.result.Ok? ==> o == UpsertSpec(t, m, now))
            && (caller.None? ==> o.result == Fail(Unauthorized))
            && (caller.Some? && RootRole !in caller.value && AdminRole !in caller.value
                ==> o.result == Fail(Forbidden))
  {
    if caller.Some? && (RootRole in caller.value || AdminRole in caller.value) {
      var role := if RootRole in caller.value then RootRole else AdminRole;
      assert role in caller.value && role in {RootRole, AdminRole};
    }
    var o := UpsertSpec(t, m, now);
    assert o.result.Ok?;
  }

  method UpdateConfiguracion(ctx: ApplicationDbContext, caller: Caller, m: ConfiguracionSistema, now: DateTime)
    returns (r: Result<ConfiguracionSistema>)
    requires ctx.Valid()
    modifies ctx
    ensures Outcome(ctx.Snapshot(), r) == UpdateConfiguracionSpec(old(ctx.Snapshot()), caller, m, now)
    ensures ctx.Valid()
  {
    var denied := Authorize(caller, Some({RootRole, AdminRole}));
    if denied.Some? {
      r := Fail(denied.value);
    } else if !ConfiguracionValid(m) {
      r := Fail(BadRequest);
    } else {
      r := Upsert(ctx, m, now);
    }
  }

  /** The body of the action once the request is admitted: find the row,
      or create one, copy the fields and save. */
  method Upsert(ctx: ApplicationDbContext, m: ConfiguracionSistema, now: DateTime)
    returns (r: Result<ConfiguracionSistema>)
    requires ctx.Valid()
    modifies ctx
    ensures Outcome(ctx.Snapshot(), r) == UpsertSpec(old(ctx.Snapshot()), m, now)
    ensures ctx.Valid()
  {
    var t := ctx.Snapshot();
    var config: Option<nat> := None;
    if m.id != EmptyGuid {
      config := FindIndex(ctx.configuraciones, HasConfigId(m.id));
    }
    if config.None? && ctx.configuraciones != [] {
      config := Some(0);
    }
    assert config == UpsertTarget(t, m.id);
    var c: ConfiguracionSistema;
    if config.None? {
      var id := ctx.NewGuid();
      c := NewConfiguracion(id, now);
      c := ApplyConfiguracion(c, m, now);
      ctx.AddConfiguracion(c);
    } else {
      var i := config.value;
      c := ApplyConfiguracion(ctx.configuraciones[i], m, now);
      ctx.configuraciones := ctx.configuraciones[i := c];
    }
    UpdateConfiguracionConsistent(t, m, now);
    var ok := ctx.SaveChanges();
    assert ok;
    r := Ok(c);
  }

  /** The upsert keeps the store consistent: an edited row keeps its id and
      a created one takes a fresh id. */
  lemma UpdateConfiguracionConsistent(t: Tables, m: ConfiguracionSistema, now: DateTime)
    requires Consistent(t)
    ensures Consistent(UpsertSpec(t, m, now).tables)
  {
    var o := UpsertSpec(t, m, now);
    var cs := o.tables.configuraciones;
    if UpsertTarget(t, m.id).Some? {
      assert forall k | 0 <= k < |t.configuraciones| :: cs[k].id == t.configuraciones[k].id;
      assert KeysUnique(o.tables);
    }
    assert IdsBelow(o.tables) by {
      forall k | k in cs ensures k.id < o.tables.nextId {
        var j :| 0 <= j < |cs| && cs[j] == k;
        if j < |t.configuraciones| {
          assert t.configuraciones[j] in t.configuraciones;
        }
      }
    }
  }

  /** Which row the upsert edits: the row with the request's non-empty id
      when there is one, else the first row; a row is created only when
      the table is empty, so the table grows by at most one and only from
      zero. Every other row is left as it was. */
  lemma UpsertChoosesRow(t: Tables, m: ConfiguracionSistema, now: DateTime)
    ensures var o := UpsertSpec(t, m, now);
            var cs := o.tables.configuraciones;
            && o.result.Ok?
            && (m.id != EmptyGuid && (exists k :: 0 <= k < |t.configuraciones| && t.configuraciones[k].id == m.id)
                ==> o.result.value.id == m.id)
            && ((m.id == EmptyGuid || forall k :: 0 <= k < |t.configuraciones| ==> t.configuraciones[k].id != m.id)
                && t.configuraciones != []
                ==> o.result.value.id == t.configuraciones[0].id && cs[0] == o.result.value)
            && (t.configuraciones != [] ==> |cs| == |t.configuraciones|)
            && (t.configuraciones == [] ==> cs == [o.result.value] && o.result.value.id == t.nextId)
            && (forall k :: 0 <= k < |t.configuraciones| ==>
                  cs[k] == t.configuraciones[k] || (cs[k] == o.result.value && cs[k].id == t.configuraciones[k].id))
            && o.tables.(configuraciones := t.configuraciones, nextId := t.nextId) == t
  {
    if m.id != EmptyGuid && (exists k :: 0 <= k < |t.configuraciones| && t.configuraciones[k].id == m.id) {
      var k :| 0 <= k < |t.configuraciones| && t.configuraciones[k].id == m.id;
      assert HasConfigId(m.id)(t.configuraciones[k]);
    }
  }

  /** The row written holds exactly the request's display fields and the
      time of the change, and keeps the id it had (or the fresh one). */
  lemma UpsertCopiesFields(t: Tables, m: ConfiguracionSistema, now: DateTime)
    ensures var o := UpsertSpec(t, m, now);
            && SameDisplay(o.result.value, m)
            && o.result.value.ultimaActualizacion == now
            && o.result.value in o.tables.configuraciones
            && (match UpsertTarget(t, m.id)
                case Some(i) => o.result.value.id == t.configuraciones[i].id
                case None => o.result.value.id == t.nextId)
  {
    var o := UpsertSpec(t, m, now);
    match UpsertTarget(t, m.id)
    case Some(i) =>
      assert o.tables.configuraciones[i] == o.result.value;
    case None =>
      assert o.tables.configuraciones[|t.configuraciones|] == o.result.value;
  }

  /** Reading back after an upsert gives the written row, unless the
      request named a row other than the first: then the read still
      answers the first row. */
  lemma GetAfterUpsert(t: Tables, m: ConfiguracionSistema, now: DateTime, roles: seq<string>)
    requires KeysUnique(t)
    ensures var o := UpsertSpec(t, m, now);
            (UpsertTarget(t, m.id) == Some(0) || t.configuraciones == [])
            <==> GetConfiguracion(o.tables, Some(roles)) == Ok(o.result.value)
    ensures var o := UpsertSpec(t, m, now);
            UpsertTarget(t, m.id).Some? && UpsertTarget(t, m.id) != Some(0)
            ==> GetConfiguracion(o.tables, Some(roles)) == Ok(t.configuraciones[0])
  {
    var o := UpsertSpec(t, m, now);
    match UpsertTarget(t, m.id)
    case Some(i) =>
      if i != 0 {
        var c := o.result.value;
        assert o.tables.configuraciones[i] == c;
        assert o.tables.configuraciones[0] == t.configuraciones[0];
        assert c.id == t.configuraciones[i].id != t.configuraciones[0].id;
      }
    case None =>
  }

  // --------------------------------------------------------------- schemas

  /** SQL LIKE without an escape character: `%` matches any run of
      characters, `_` exactly one, anything else itself (case matters). */
  function Like(s: string, pattern: string): bool
    decreases |s| + |pattern|
  {
    if pattern == [] then s == []
    else if pattern[0] == '%' then Like(s, pattern[1..]) || (s != [] && Like(s[1..], pattern))
    else s != [] && (pattern[0] == '_' || pattern[0] == s[0]) && Like(s[1..], pattern[1..])
  }

  lemma {:induction false} LikeAnyRest(s: string)
    ensures Like(s, "%")
  {
    if s != [] {
      LikeAnyRest(s[1..]);
    }
  }

  /** `LIKE 'pg_%'` holds exactly for names of three or more characters
      that begin with "pg". */
  lemma LikePgIff(s: string)
    ensures Like(s, "pg_%") <==> |s| >= 3 && s[0] == 'p' && s[1] == 'g'
  {
    var p := "pg_%";
    assert p[1..] == "g_%" && p[1..][1..] == "_%" && p[1..][1..][1..] == "%";
    if |s| >= 3 && s[0] == 'p' && s[1] == 'g' {
      LikeAnyRest(s[1..][1..][1..]);
      assert Like(s[1..][1..], "_%");
      assert Like(s[1..], "g_%");
    }
    if Like(s, p) {
      LikePgPrefix(s);
    }
  }

  lemma LikePgPrefix(s: string)
    requires Like(s, "pg_%")
    ensures |s| >= 3 && s[0] == 'p' && s[1] == 'g'
  {
    var p := "pg_%";
    assert p[0] == 'p' && p[1..] == "g_%";
    assert s != [] && s[0] == 'p' && Like(s[1..], "g_%");
    var g := "g_%";
    assert g[0] == 'g' && g[1..] == "_%";
    assert s[1..] != [] && s[1..][0] == 'g' && Like(s[1..][1..], "_%");
    var u := "_%";
    assert u[0] == '_' && u[1..] == "%";
    assert s[1..][1..] != [];
  }

  /** The schema-name filter of the namespace query. */
  predicate SchemaListed(name: string)
  {
    !Like(name, "pg_%") && name != "information_schema" && name != "public"
  }

  function IsListed(): string -> bool
  {
    (name: string) => SchemaListed(name)
  }

  /** A name is listed exactly when it is neither information_schema nor
      public and is not a name of three or more characters beginning with
      "pg" (the `_` of the pattern is a wildcard, so "pg" itself and "pgx"
      alike fall on their side of the rule by length alone). */
  lemma SchemaListedIff(name: string)
    ensures SchemaListed(name)
            <==> !(|name| >= 3 && name[0] == 'p' && name[1] == 'g')
                 && name != "information_schema" && name != "public"
  {
    LikePgIff(name);
  }

  /** GetAvailableSchemas: Root only; then the names the query keeps. */
  method GetAvailableSchemas(caller: Caller, namespaces: seq<string>) returns (r: Result<seq<string>>)
    ensures caller.None? ==> r == Fail(Unauthorized)
    ensures caller.Some? && RootRole in caller.value ==> r == Ok(Filter(namespaces, IsListed()))
    ensures caller.Some? && RootRole !in caller.value ==> r == Fail(Forbidden)
  {
    var denied := Authorize(caller, Some({RootRole}));
    if denied.Some? {
      r := Fail(denied.value);
    } else {
      var schemas := ReadSchemas(namespaces);
      r := Ok(schemas);
    }
  }

  /** The reader loop: the namespaces the query keeps, read one by one into
      a list, in the order the server returns them. */
  method ReadSchemas(namespaces: seq<string>) returns (schemas: seq<string>)
    ensures schemas == Filter(namespaces, IsListed())
  {
    schemas := [];
    var j := 0;
    while j < |namespaces|
      invariant 0 <= j <= |namespaces|
      invariant schemas == Filter(namespaces[..j], IsListed())
    {
      FilterAppend(namespaces[..j], [namespaces[j]], IsListed());
      assert namespaces[..j + 1] == namespaces[..j] + [namespaces[j]];
      if SchemaListed(namespaces[j]) {
        schemas := schemas + [namespaces[j]];
      }
      j := j + 1;
    }
    assert namespaces[..j] == namespaces;
  }
}
