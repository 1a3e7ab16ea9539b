/** The database the services talk to, as an in-memory object: one map per table,
    keyed by identifier, plus the unique indexes the schema declares (user e-mail,
    rubric name, criterion name, and the evaluation's project). A new row gets any
    identifier not yet in use in its table. The notification service is an append-only outbox. Each method
    of `Store` plays one database call and states the whole new state. */
module Store {
  import opened Common

  datatype User = User(fullname: string, email: string, roles: set<Role>)

  datatype Convocatoria = Convocatoria(
    titulo: string,
    descripcion: string,
    fechaInicio: Date,
    fechaFin: Date,
    isActive: bool,
    rubricaId: Option<Id>)

  /** A project. `estudiantes` is the many-to-many relation to users, a set as in
      the database. */
  datatype Proyecto = Proyecto(
    titulo: string,
    resumen: string,
    convocatoriaId: Id,
    tiempoEjecucion: int,
    fechaInicio: Date,
    fechaFin: Date,
    documentoUrl: Option<string>,
    estudiantes: set<Id>,
    proyectoAulaId: Option<Id>,
    proyectoSemilleroId: Option<Id>,
    evaluadorId: Option<Id>)

  datatype AulaDetails = AulaDetails(
    curso: string,
    docenteOrientador: string,
    estadoFormulacion: string,
    estadoEjecucion: string,
    estadoTerminado: string,
    modalidadPresentacion: string)

  datatype SemilleroDetails = SemilleroDetails(
    nombreSemillero: string,
    siglaSemillero: string,
    directorSemillero: string,
    modalidadPresentacion: string)

  datatype ProyectoAula = ProyectoAula(proyectoId: Id, details: AulaDetails)
  datatype ProyectoSemillero = ProyectoSemillero(proyectoId: Id, details: SemilleroDetails)

  datatype Evaluacion = Evaluacion(
    proyectoId: Id,
    rubricaId: Id,
    puntajeTotal: int,
    observaciones: Option<string>,
    evaluadorId: Id)

  datatype EvaluacionCriterio = EvaluacionCriterio(
    evaluacionId: Id,
    criterioId: Id,
    puntaje: int,
    comentario: Option<string>)

  /** A rubric; `criterios` is its many-to-many relation to criteria. */
  datatype Rubrica = Rubrica(nombre: string, descripcion: string, criterios: set<Id>)

  datatype Criterio = Criterio(nombre: string, puntajeMin: int, puntajeMax: int, descripcion: string)

  /** Which message template a notification uses; the template text itself is
      fixed per kind and is not modelled. */
  datatype Notice =
    | ProjectCreatedAdmin     // "Nuevo proyecto creado: ..." to the admin
    | ProjectCreatedOwner     // "Tu proyecto: ... ha sido creado." to the creator
    | AddedAsParticipant      // "Has sido agregado como participante ..." to the others
    | AssignedAsEvaluator     // "Has sido asignado como evaluador ..."
    | ProjectEvaluated        // "Tu proyecto: ... ha sido evaluado." to each student
    | ProjectEvaluatedAdmin   // "El proyecto: ... ha sido evaluado por ..." to the admin

  /** One call of the notification service: recipient, title, template and the
      project the action link points to. */
  datatype Notification = Notification(userId: Id, title: string, notice: Notice, proyectoId: Id)

  /** `index` is a unique index on `key` over `rows`: it maps each key in use to
      the one row that has it. */
  predicate UniqueIndex<K, T>(rows: map<Id, T>, index: map<K, Id>, key: T -> K) {
    && (forall k :: k in index ==> index[k] in rows && key(rows[index[k]]) == k)
    && (forall id :: id in rows ==> key(rows[id]) in index && index[key(rows[id])] == id)
  }

  /** `m` keeps every entry of `m0`. */
  predicate Extends<K(!new), V(==)>(m0: map<K, V>, m: map<K, V>) {
    forall x :: x in m0 ==> x in m && m[x] == m0[x]
  }

  /** Every row of `rows` that was not in `rows0` is one of `ids`. */
  predicate AddedAmong<V>(rows0: map<Id, V>, rows: map<Id, V>, ids: seq<Id>) {
    forall id :: id in rows && id !in rows0 ==> id in ids
  }

  /** A unique index makes its key a key: two rows with the same key are the same
      row. For evaluations this is "at most one evaluation per project". */
  lemma UniqueKey<K, T>(rows: map<Id, T>, index: map<K, Id>, key: T -> K, a: Id, b: Id)
    requires UniqueIndex(rows, index, key)
    requires a in rows && b in rows && key(rows[a]) == key(rows[b])
    ensures a == b
  {
    assert index[key(rows[a])] == a;
  }

  /** Adding a row under a fresh identifier and an unused key keeps the index. */
  lemma IndexInsert<K, T>(rows: map<Id, T>, index: map<K, Id>, key: T -> K, id: Id, row: T)
    requires UniqueIndex(rows, index, key) && id !in rows && key(row) !in index
    ensures UniqueIndex(rows[id := row], index[key(row) := id], key)
  {
  }

  /** A key that is not in use, standing for the generated identifier of a new row
      (a fresh UUID). */
  method FreshId(keys: set<Id>) returns (id: Id)
    ensures id !in keys
  {
    id := 0;
    var rest := keys;
    while rest != {}
      invariant rest <= keys
      invariant forall k :: k in keys && k !in rest ==> k < id
      decreases |rest|
    {
      var k :| k in rest;
      if k >= id {
        id := k + 1;
      }
      rest := rest - {k};
    }
  }

  function EmailOf(u: User): string { u.email }
  function RubricaNombre(r: Rubrica): string { r.nombre }
  function CriterioNombre(c: Criterio): string { c.nombre }
  function EvaluadoProyecto(e: Evaluacion): Id { e.proyectoId }

  predicate IsAdmin(u: User) { Admin in u.roles }

  /** `a` is a possible answer of `findFirst` for a user with the ADMIN role. */
  predicate AdminAnswer(users: map<Id, User>, a: Option<Id>) {
    && (a.Some? ==> a.value in users && IsAdmin(users[a.value]))
    && (a.None? ==> forall id :: id in users ==> !IsAdmin(users[id]))
  }

  /** Required relations: every project belongs to an existing convocatoria. */
  predicate ProyectosLinked(proyectos: map<Id, Proyecto>, convocatorias: map<Id, Convocatoria>) {
    forall id :: id in proyectos ==> proyectos[id].convocatoriaId in convocatorias
  }

  /** Required relations: every evaluation is of an existing project, by an
      existing user. */
  predicate EvaluacionesLinked(evaluaciones: map<Id, Evaluacion>, proyectos: map<Id, Proyecto>, users: map<Id, User>) {
    forall id :: id in evaluaciones ==>
      evaluaciones[id].proyectoId in proyectos && evaluaciones[id].evaluadorId in users
  }

  /** The tables a read query sees. */
  datatype Tables = Tables(
    users: map<Id, User>,
    convocatorias: map<Id, Convocatoria>,
    proyectos: map<Id, Proyecto>,
    aulas: map<Id, ProyectoAula>,
    semilleros: map<Id, ProyectoSemillero>,
    evaluaciones: map<Id, Evaluacion>,
    evaluacionByProyecto: map<Id, Id>,
    evalCriterios: seq<EvaluacionCriterio>,
    rubricas: map<Id, Rubrica>,
    criterios: map<Id, Criterio>)

  /** The relations the read queries follow without a null check exist. */
  predicate Linked(t: Tables) {
    && ProyectosLinked(t.proyectos, t.convocatorias)
    && EvaluacionesLinked(t.evaluaciones, t.proyectos, t.users)
    && UniqueIndex(t.evaluaciones, t.evaluacionByProyecto, EvaluadoProyecto)
  }

  /** The schema's one-to-one detail relations: each Aula or Semillero record
      belongs to one project, and that project links back to it. */
  predicate DetailsLinked(t: Tables) {
    && (forall a :: a in t.aulas ==>
          t.aulas[a].proyectoId in t.proyectos && t.proyectos[t.aulas[a].proyectoId].proyectoAulaId == Some(a))
    && (forall id :: id in t.proyectos && t.proyectos[id].proyectoAulaId.Some?
                     && t.proyectos[id].proyectoAulaId.value in t.aulas ==>
          t.aulas[t.proyectos[id].proyectoAulaId.value].proyectoId == id)
    && (forall s :: s in t.semilleros ==>
          t.semilleros[s].proyectoId in t.proyectos && t.proyectos[t.semilleros[s].proyectoId].proyectoSemilleroId == Some(s))
    && (forall id :: id in t.proyectos && t.proyectos[id].proyectoSemilleroId.Some?
                     && t.proyectos[id].proyectoSemilleroId.value in t.semilleros ==>
          t.semilleros[t.proyectos[id].proyectoSemilleroId.value].proyectoId == id)
  }

  /** `order` lists the keys of `rows` once each: the order in which the database
      returns an unordered `findMany`. */
  predicate Lists<T>(order: seq<Id>, rows: map<Id, T>) {
    && (forall i :: 0 <= i < |order| ==> order[i] in rows)
    && (forall id :: id in rows ==> id in order)
    && (forall i, j :: 0 <= i < j < |order| ==> order[i] != order[j])
  }

  class Store {
    var users: map<Id, User>
    var emailIndex: map<string, Id>
    var convocatorias: map<Id, Convocatoria>
    var proyectos: map<Id, Proyecto>
    var aulas: map<Id, ProyectoAula>
    var semilleros: map<Id, ProyectoSemillero>
    var evaluaciones: map<Id, Evaluacion>
    var evaluacionByProyecto: map<Id, Id>
    var evalCriterios: seq<EvaluacionCriterio>
    var rubricas: map<Id, Rubrica>
    var rubricaByNombre: map<string, Id>
    var criterios: map<Id, Criterio>
    var criterioByNombre: map<string, Id>
    var outbox: seq<Notification>

    /** The schema's unique constraints hold and the required relations exist. */
    predicate Valid()
      reads this`users, this`emailIndex, this`convocatorias, this`proyectos, this`aulas, this`semilleros
      reads this`evaluaciones, this`evaluacionByProyecto, this`rubricas, this`rubricaByNombre
      reads this`criterios, this`criterioByNombre
    {
      && UniqueIndex(users, emailIndex, EmailOf)
      && UniqueIndex(rubricas, rubricaByNombre, RubricaNombre)
      && UniqueIndex(criterios, criterioByNombre, CriterioNombre)
      && UniqueIndex(evaluaciones, evaluacionByProyecto, EvaluadoProyecto)
      && ProyectosLinked(proyectos, convocatorias)
      && EvaluacionesLinked(evaluaciones, proyectos, users)
    }

    function Snapshot(): (t: Tables)
      reads this
      ensures Valid() ==> Linked(t)
    {
      Tables(users, convocatorias, proyectos, aulas, semilleros, evaluaciones,
             evaluacionByProyecto, evalCriterios, rubricas, criterios)
    }

    constructor ()
      ensures Valid()
      ensures users == map[] && convocatorias == map[] && proyectos == map[]
      ensures evaluaciones == map[] && rubricas == map[] && criterios == map[]
      ensures aulas == map[] && semilleros == map[] && evalCriterios == [] && outbox == []
    {
      users, emailIndex := map[], map[];
      convocatorias, proyectos, aulas, semilleros := map[], map[], map[], map[];
      evaluaciones, evaluacionByProyecto, evalCriterios := map[], map[], [];
      rubricas, rubricaByNombre, criterios, criterioByNombre := map[], map[], map[], map[];
      outbox := [];
    }

    /** `user.findUnique({ where: { email } })`. */
    function UserByEmail(email: string): (r: Option<Id>)
      reads this
      requires Valid()
      ensures r.Some? <==> exists id :: id in users && users[id].email == email
      ensures r.Some? ==> r.value in users && users[r.value].email == email
    {
      if email in emailIndex then
        Some(emailIndex[email])
      else
        assert forall id :: id in users ==> EmailOf(users[id]) in emailIndex;
        None
    }

    /** `user.findFirst({ where: { roles: { has: "ADMIN" } } })`. The query has no
        ordering, so which admin comes back is left open. */
    method FindAdmin() returns (a: Option<Id>)
      ensures AdminAnswer(users, a)
    {
      if exists id :: id in users && IsAdmin(users[id]) {
        var id :| id in users && IsAdmin(users[id]);
        a := Some(id);
      } else {
        a := None;
      }
    }

    method InsertUser(u: User) returns (id: Id)
      requires Valid() && u.email !in emailIndex
      modifies this`users, this`emailIndex
      ensures Valid()
      ensures id !in old(users)
      ensures users == old(users)[id := u] && emailIndex == old(emailIndex)[u.email := id]
    {
      id := FreshId(users.Keys);
      IndexInsert(users, emailIndex, EmailOf, id, u);
      users := users[id := u];
      emailIndex := emailIndex[u.email := id];
    }

    method InsertConvocatoria(c: Convocatoria) returns (id: Id)
      requires Valid()
      modifies this`convocatorias
      ensures Valid()
      ensures id !in old(convocatorias)
      ensures convocatorias == old(convocatorias)[id := c]
    {
      id := FreshId(convocatorias.Keys);
      convocatorias := convocatorias[id := c];
    }

    method UpdateConvocatoria(id: Id, c: Convocatoria)
      requires Valid() && id in convocatorias
      modifies this`convocatorias
      ensures Valid()
      ensures convocatorias == old(convocatorias)[id := c]
    {
      convocatorias := convocatorias[id := c];
    }

    method InsertProyecto(p: Proyecto) returns (id: Id)
      requires Valid() && p.convocatoriaId in convocatorias
      modifies this`proyectos
      ensures Valid()
      ensures id !in old(proyectos)
      ensures proyectos == old(proyectos)[id := p]
    {
      id := FreshId(proyectos.Keys);
      proyectos := proyectos[id := p];
    }

    method UpdateProyecto(id: Id, p: Proyecto)
      requires Valid() && id in proyectos && p.convocatoriaId in convocatorias
      modifies this`proyectos
      ensures Valid()
      ensures proyectos == old(proyectos)[id := p]
    {
      proyectos := proyectos[id := p];
    }

    method InsertAula(a: ProyectoAula) returns (id: Id)
      requires Valid()
      modifies this`aulas
      ensures Valid()
      ensures id !in old(aulas)
      ensures aulas == old(aulas)[id := a]
    {
      id := FreshId(aulas.Keys);
      aulas := aulas[id := a];
    }

    method InsertSemillero(s: ProyectoSemillero) returns (id: Id)
      requires Valid()
      modifies this`semilleros
      ensures Valid()
      ensures id !in old(semilleros)
      ensures semilleros == old(semilleros)[id := s]
    {
      id := FreshId(semilleros.Keys);
      semilleros := semilleros[id := s];
    }

    /** Inserting an evaluation for a project that already has one would violate
        the unique constraint on `Evaluacion.proyectoId`. */
    method InsertEvaluacion(e: Evaluacion) returns (id: Id)
      requires Valid() && e.proyectoId !in evaluacionByProyecto
      requires e.proyectoId in proyectos && e.evaluadorId in users
      modifies this`evaluaciones, this`evaluacionByProyecto
      ensures Valid()
      ensures id !in old(evaluaciones)
      ensures evaluaciones == old(evaluaciones)[id := e]
      ensures evaluacionByProyecto == old(evaluacionByProyecto)[e.proyectoId := id]
    {
      id := FreshId(evaluaciones.Keys);
      IndexInsert(evaluaciones, evaluacionByProyecto, EvaluadoProyecto, id, e);
      evaluaciones := evaluaciones[id := e];
      evaluacionByProyecto := evaluacionByProyecto[e.proyectoId := id];
    }

    /** `evaluacionCriterio.createMany`. */
    method InsertEvalCriterios(rows: seq<EvaluacionCriterio>)
      requires Valid()
      modifies this`evalCriterios
      ensures Valid()
      ensures evalCriterios == old(evalCriterios) + rows
    {
      evalCriterios := evalCriterios + rows;
    }

    method InsertRubrica(r: Rubrica) returns (id: Id)
      requires Valid() && r.nombre !in rubricaByNombre
      modifies this`rubricas, this`rubricaByNombre
      ensures Valid()
      ensures id !in old(rubricas)
      ensures rubricas == old(rubricas)[id := r]
      ensures rubricaByNombre == old(rubricaByNombre)[r.nombre := id]
    {
      id := FreshId(rubricas.Keys);
      IndexInsert(rubricas, rubricaByNombre, RubricaNombre, id, r);
      rubricas := rubricas[id := r];
      rubricaByNombre := rubricaByNombre[r.nombre := id];
    }

    /** Connects criteria to a rubric (the relation only grows). */
    method ConnectCriterios(id: Id, ids: set<Id>)
      requires Valid() && id in rubricas
      modifies this`rubricas
      ensures Valid()
      ensures rubricas == old(rubricas)[id := old(rubricas)[id].(criterios := old(rubricas)[id].criterios + ids)]
    {
      rubricas := rubricas[id := rubricas[id].(criterios := rubricas[id].criterios + ids)];
    }

    method InsertCriterio(c: Criterio) returns (id: Id)
      requires Valid() && c.nombre !in criterioByNombre
      modifies this`criterios, this`criterioByNombre
      ensures Valid()
      ensures id !in old(criterios)
      ensures criterios == old(criterios)[id := c]
      ensures criterioByNombre == old(criterioByNombre)[c.nombre := id]
    {
      id := FreshId(criterios.Keys);
      IndexInsert(criterios, criterioByNombre, CriterioNombre, id, c);
      criterios := criterios[id := c];
      criterioByNombre := criterioByNombre[c.nombre := id];
    }

    /** `notificacionService.enviarNotificacion`. */
    method Send(n: Notification)
      requires Valid()
      modifies this`outbox
      ensures Valid()
      ensures outbox == old(outbox) + [n]
    {
      outbox := outbox + [n];
    }
  }
}
