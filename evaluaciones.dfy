/** The evaluation service: a DOCENTE evaluates a project once, against the rubric
    of its convocatoria, and the evaluation is readable by the admin, the project's
    evaluator and its students. */
module Evaluaciones {
  import opened Common
  import opened Store

  datatype CriterioEvaluacionDto = CriterioEvaluacionDto(criterioId: Id, puntaje: int, comentario: Option<string>)

  datatype EvaluacionDto = EvaluacionDto(
    proyectoId: Id,
    puntajeTotal: int,
    observaciones: Option<string>,
    criteriosEvaluacion: seq<CriterioEvaluacionDto>)

  /** The rubric of a project's convocatoria, when there is one. */
  function RubricaOf(db: Store, p: Proyecto): Option<Id>
    reads db
  {
    if p.convocatoriaId in db.convocatorias
       && db.convocatorias[p.convocatoriaId].rubricaId.Some?
       && db.convocatorias[p.convocatoriaId].rubricaId.value in db.rubricas
    then db.convocatorias[p.convocatoriaId].rubricaId
    else None
  }

  /** The criterion rows of a new evaluation: one per DTO entry, in order. */
  function CriterioRows(evaluacionId: Id, dtos: seq<CriterioEvaluacionDto>): (rows: seq<EvaluacionCriterio>)
    ensures |rows| == |dtos|
    ensures forall i :: 0 <= i < |rows| ==>
              rows[i].evaluacionId == evaluacionId && rows[i].criterioId == dtos[i].criterioId
              && rows[i].puntaje == dtos[i].puntaje && rows[i].comentario == dtos[i].comentario
  {
    seq(|dtos|, i requires 0 <= i < |dtos| => EvaluacionCriterio(evaluacionId, dtos[i].criterioId, dtos[i].puntaje, dtos[i].comentario))
  }

  /** `order` lists the members of `s` once each. */
  predicate Enumerates(order: seq<Id>, s: set<Id>) {
    && (forall i :: 0 <= i < |order| ==> order[i] in s)
    && (forall x :: x in s ==> x in order)
    && (forall i, j :: 0 <= i < j < |order| ==> order[i] != order[j])
  }

  function EvaluatedNotices(order: seq<Id>, titulo: string, proyectoId: Id): (ns: seq<Notification>)
    ensures |ns| == |order|
    ensures forall i :: 0 <= i < |ns| ==> ns[i] == Notification(order[i], titulo, ProjectEvaluated, proyectoId)
  {
    seq(|order|, i requires 0 <= i < |order| => Notification(order[i], titulo, ProjectEvaluated, proyectoId))
  }

  function AdminNotice(admin: Option<Id>, titulo: string, proyectoId: Id): seq<Notification> {
    if admin.Some? then [Notification(admin.value, titulo, ProjectEvaluatedAdmin, proyectoId)] else []
  }

  /** Every student of an evaluated project is told, once each; the order of the
      relation is the database's. */
  method NotifyStudents(db: Store, estudiantes: set<Id>, titulo: string, proyectoId: Id)
    requires db.Valid()
    modifies db`outbox
    ensures db.Valid()
    ensures exists order :: Enumerates(order, estudiantes) && db.outbox == old(db.outbox) + EvaluatedNotices(order, titulo, proyectoId)
  {
    var remaining := estudiantes;
    ghost var sent: seq<Id> := [];
    while remaining != {}
      invariant forall i :: 0 <= i < |sent| ==> sent[i] in estudiantes && sent[i] !in remaining
      invariant forall x :: x in estudiantes ==> x in remaining || x in sent
      invariant remaining <= estudiantes
      invariant forall i, j :: 0 <= i < j < |sent| ==> sent[i] != sent[j]
      invariant db.outbox == old(db.outbox) + EvaluatedNotices(sent, titulo, proyectoId)
      invariant db.Valid()
      decreases remaining
    {
      var s :| s in remaining;
      db.Send(Notification(s, titulo, ProjectEvaluated, proyectoId));
      assert EvaluatedNotices(sent + [s], titulo, proyectoId) == EvaluatedNotices(sent, titulo, proyectoId) + [Notification(s, titulo, ProjectEvaluated, proyectoId)];
      sent := sent + [s];
      remaining := remaining - {s};
    }
    assert Enumerates(sent, estudiantes);
  }

  /** `after` is `before` followed by what `crearEvaluacion` sends for an
      evaluated project: one notice per student, in some order, then one to an
      admin if there is one. */
  ghost predicate EvaluatedOutbox(users: map<Id, User>, before: seq<Notification>, after: seq<Notification>,
                            p: Proyecto, proyectoId: Id)
  {
    exists order, a :: Enumerates(order, p.estudiantes) && AdminAnswer(users, a)
      && after == before + EvaluatedNotices(order, p.titulo, proyectoId) + AdminNotice(a, p.titulo, proyectoId)
  }

  /** The notification step of `crearEvaluacion`: the students, then the admin. */
  method NotifyEvaluated(db: Store, p: Proyecto, proyectoId: Id)
    requires db.Valid()
    modifies db`outbox
    ensures db.Valid()
    ensures EvaluatedOutbox(db.users, old(db.outbox), db.outbox, p, proyectoId)
  {
    NotifyStudents(db, p.estudiantes, p.titulo, proyectoId);
    ghost var order :| Enumerates(order, p.estudiantes) && db.outbox == old(db.outbox) + EvaluatedNotices(order, p.titulo, proyectoId);
    var admin := db.FindAdmin();
    if admin.Some? {
      db.Send(Notification(admin.value, p.titulo, ProjectEvaluatedAdmin, proyectoId));
    }
    assert db.outbox == old(db.outbox) + EvaluatedNotices(order, p.titulo, proyectoId) + AdminNotice(admin, p.titulo, proyectoId);
  }

  /** The writes of `crearEvaluacion` once its guards passed: the evaluation, its
      criterion rows, then the notifications. */
  method RecordEvaluacion(db: Store, dto: EvaluacionDto, p: Proyecto, rubricaId: Id, evaluadorId: Id) returns (id: Id)
    requires db.Valid() && evaluadorId in db.users
    requires dto.proyectoId in db.proyectos && dto.proyectoId !in db.evaluacionByProyecto
    modifies db`evaluaciones, db`evaluacionByProyecto, db`evalCriterios, db`outbox
    ensures db.Valid()
    ensures id !in old(db.evaluaciones)
    ensures db.evaluaciones == old(db.evaluaciones)[id := Evaluacion(dto.proyectoId, rubricaId, dto.puntajeTotal, dto.observaciones, evaluadorId)]
    ensures db.evaluacionByProyecto == old(db.evaluacionByProyecto)[dto.proyectoId := id]
    ensures db.evalCriterios == old(db.evalCriterios) + CriterioRows(id, dto.criteriosEvaluacion)
    ensures EvaluatedOutbox(db.users, old(db.outbox), db.outbox, p, dto.proyectoId)
  {
    id := db.InsertEvaluacion(Evaluacion(dto.proyectoId, rubricaId, dto.puntajeTotal, dto.observaciones, evaluadorId));
    db.InsertEvalCriterios(CriterioRows(id, dto.criteriosEvaluacion));
    NotifyEvaluated(db, p, dto.proyectoId);
  }

  /** `crearEvaluacion`. The role check comes first and needs no lookup; then the
      project must exist, must not be evaluated yet, and its convocatoria must
      have a rubric. A rejected request writes nothing. */
  method CrearEvaluacion(db: Store, dto: EvaluacionDto, evaluador: Caller) returns (r: Result<Id>)
    requires db.Valid() && evaluador.id in db.users
    modifies db`evaluaciones, db`evaluacionByProyecto, db`evalCriterios, db`outbox
    ensures db.Valid()
    ensures Docente !in evaluador.roles ==> r == Err(Forbidden(NotDocente)) && unchanged(db)
    ensures Docente in evaluador.roles && dto.proyectoId !in db.proyectos ==>
              r == Err(NotFound(ProyectoMissing)) && unchanged(db)
    ensures Docente in evaluador.roles && dto.proyectoId in db.proyectos && dto.proyectoId in old(db.evaluacionByProyecto) ==>
              r == Err(BadRequest(AlreadyEvaluated)) && unchanged(db)
    ensures Docente in evaluador.roles && dto.proyectoId in db.proyectos && dto.proyectoId !in old(db.evaluacionByProyecto)
            && RubricaOf(db, db.proyectos[dto.proyectoId]).None? ==>
              r == Err(BadRequest(NoRubrica)) && unchanged(db)
    ensures r.Ok? <==> Docente in evaluador.roles && dto.proyectoId in db.proyectos
                       && dto.proyectoId !in old(db.evaluacionByProyecto)
                       && RubricaOf(db, db.proyectos[dto.proyectoId]).Some?
    ensures r.Ok? ==>
      var id := r.value;
      var p := db.proyectos[dto.proyectoId];
      && id !in old(db.evaluaciones)
      && db.evaluaciones == old(db.evaluaciones)[id := Evaluacion(dto.proyectoId, RubricaOf(db, p).value, dto.puntajeTotal, dto.observaciones, evaluador.id)]
      && db.evaluacionByProyecto == old(db.evaluacionByProyecto)[dto.proyectoId := id]
      && db.evalCriterios == old(db.evalCriterios) + CriterioRows(id, dto.criteriosEvaluacion)
      && EvaluatedOutbox(db.users, old(db.outbox), db.outbox, p, dto.proyectoId)
  {
    if Docente !in evaluador.roles {
      return Err(Forbidden(NotDocente));
    }
    if dto.proyectoId !in db.proyectos {
      return Err(NotFound(ProyectoMissing));
    }
    var p := db.proyectos[dto.proyectoId];
    if dto.proyectoId in db.evaluacionByProyecto {
      return Err(BadRequest(AlreadyEvaluated));
    }
    var rubrica := RubricaOf(db, p);
    if rubrica.None? {
      return Err(BadRequest(NoRubrica));
    }
    var id := RecordEvaluacion(db, dto, p, rubrica.value, evaluador.id);
    r := Ok(id);
  }

  /** Who may read a project's evaluation: an ADMIN, the project's evaluator, or
      one of its students. */
  predicate MayRead(p: Proyecto, caller: Caller) {
    Admin in caller.roles || p.evaluadorId == Some(caller.id) || caller.id in p.estudiantes
  }

  /** An evaluation with its criterion rows, as `getEvaluacionByProyectoId` returns it. */
  datatype EvaluacionView = EvaluacionView(id: Id, evaluacion: Evaluacion, criterios: seq<EvaluacionCriterio>)

  /** `getEvaluacionByProyectoId`: NotFound for an unknown project, Forbidden for a
      caller who may not read it, otherwise the evaluation or nothing. */
  function GetEvaluacionByProyectoId(t: Tables, proyectoId: Id, caller: Caller): (r: Result<Option<EvaluacionView>>)
    requires Linked(t)
    ensures proyectoId !in t.proyectos <==> r == Err(NotFound(ProyectoMissing))
    ensures proyectoId in t.proyectos && !MayRead(t.proyectos[proyectoId], caller) <==> r == Err(Forbidden(NoPermission))
    ensures r.Ok? ==> (r.value.Some? <==> proyectoId in t.evaluacionByProyecto)
    ensures r.Ok? && r.value.Some? ==>
              var v := r.value.value;
              && v.id == t.evaluacionByProyecto[proyectoId] && v.id in t.evaluaciones
              && v.evaluacion == t.evaluaciones[v.id] && v.evaluacion.proyectoId == proyectoId
              && (forall i :: 0 <= i < |v.criterios| ==> v.criterios[i] in t.evalCriterios && v.criterios[i].evaluacionId == v.id)
              && (forall c :: c in t.evalCriterios && c.evaluacionId == v.id ==> c in v.criterios)
  {
    if proyectoId !in t.proyectos then Err(NotFound(ProyectoMissing))
    else if !MayRead(t.proyectos[proyectoId], caller) then Err(Forbidden(NoPermission))
    else if proyectoId !in t.evaluacionByProyecto then Ok(None)
    else
      var id := t.evaluacionByProyecto[proyectoId];
      Ok(Some(EvaluacionView(id, t.evaluaciones[id], Filter(t.evalCriterios, (c: EvaluacionCriterio) => c.evaluacionId == id))))
  }

  /** Under the store's invariant a project has at most one evaluation, and it is
      the one the read returns. */
  lemma OneEvaluacionPerProyecto(db: Store, a: Id, b: Id)
    requires db.Valid()
    requires a in db.evaluaciones && b in db.evaluaciones
    requires db.evaluaciones[a].proyectoId == db.evaluaciones[b].proyectoId
    ensures a == b
  {
    UniqueKey(db.evaluaciones, db.evaluacionByProyecto, EvaluadoProyecto, a, b);
  }
}
