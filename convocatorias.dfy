/** The convocatorias service: creation, the convocatorias a student may still
    apply to, and the detail view with each project's kind. */
module Convocatorias {
  import opened Common
  import opened Kind
  import opened Store
  import Proyectos

  /** The validated creation request. `rubricaId` is optional. */
  datatype CreateConvocatoriaDto = CreateConvocatoriaDto(
    titulo: string,
    descripcion: string,
    fechaInicio: Date,
    fechaFin: Date,
    rubricaId: Option<Id>)

  /** The row `create` stores: the request's fields, plus the table's default for
      `isActive`, which is a parameter since the schema is not part of this model. */
  function StoredConvocatoria(dto: CreateConvocatoriaDto, isActiveDefault: bool): Convocatoria {
    Convocatoria(dto.titulo, dto.descripcion, dto.fechaInicio, dto.fechaFin, isActiveDefault, dto.rubricaId)
  }

  /** `create`: the rubric lookup it starts is never awaited, so its outcome cannot
      stop the insert; the request is stored as given. */
  method Create(db: Store, dto: CreateConvocatoriaDto, isActiveDefault: bool) returns (id: Id)
    requires db.Valid()
    modifies db`convocatorias
    ensures db.Valid()
    ensures id !in old(db.convocatorias)
    ensures db.convocatorias == old(db.convocatorias)[id := StoredConvocatoria(dto, isActiveDefault)]
  {
    id := db.InsertConvocatoria(StoredConvocatoria(dto, isActiveDefault));
  }

  // ---------------------------------------------------------------------------
  // Available convocatorias
  // ---------------------------------------------------------------------------

  /** The projects submitted to a convocatoria, in the database's order. */
  function ProyectosDe(t: Tables, porder: seq<Id>, convocatoriaId: Id): (ids: seq<Id>)
    ensures forall id :: id in ids <==> id in porder && id in t.proyectos && t.proyectos[id].convocatoriaId == convocatoriaId
  {
    Filter(porder, (id: Id) => id in t.proyectos && t.proyectos[id].convocatoriaId == convocatoriaId)
  }

  /** The query's condition: the convocatoria is active and, for every one of its
      projects, the user is not among the project's students. */
  predicate Available(t: Tables, userId: Id, convocatoriaId: Id)
    requires convocatoriaId in t.convocatorias
  {
    && t.convocatorias[convocatoriaId].isActive
    && forall pid :: pid in t.proyectos && t.proyectos[pid].convocatoriaId == convocatoriaId ==>
         userId !in t.proyectos[pid].estudiantes
  }

  /** A result row: the convocatoria and the ids of its projects. */
  datatype Disponible = Disponible(id: Id, convocatoria: Convocatoria, proyectos: seq<Id>)

  /** `getAvailableConvocatorias`. */
  function GetAvailableConvocatorias(t: Tables, corder: seq<Id>, porder: seq<Id>, userId: Id): (r: seq<Disponible>)
    requires Lists(corder, t.convocatorias)
    ensures |r| <= |corder|
    ensures forall i :: 0 <= i < |r| ==>
              && r[i].id in t.convocatorias
              && r[i].convocatoria == t.convocatorias[r[i].id]
              && r[i].proyectos == ProyectosDe(t, porder, r[i].id)
              && Available(t, userId, r[i].id)
    ensures forall id :: id in t.convocatorias ==>
              (Available(t, userId, id) <==> exists i :: 0 <= i < |r| && r[i].id == id)
  {
    var ids := Filter(corder, (id: Id) => id in t.convocatorias && Available(t, userId, id));
    var r := seq(|ids|, i requires 0 <= i < |ids| => Disponible(ids[i], t.convocatorias[ids[i]], ProyectosDe(t, porder, ids[i])));
    assert forall id :: id in t.convocatorias && Available(t, userId, id) ==> r[Index(ids, id)].id == id;
    r
  }

  /** The position of an element of a sequence. */
  function Index(s: seq<Id>, x: Id): (i: nat)
    requires x in s
    ensures i < |s| && s[i] == x
  {
    if s[0] == x then 0 else 1 + Index(s[1..], x)
  }

  /** An active convocatoria that nobody has submitted a project to is open to
      every user: the condition on its projects holds vacuously. */
  lemma EmptyConvocatoriaAvailable(t: Tables, corder: seq<Id>, porder: seq<Id>, userId: Id, id: Id)
    requires Lists(corder, t.convocatorias)
    requires id in t.convocatorias && t.convocatorias[id].isActive
    requires forall pid :: pid in t.proyectos ==> t.proyectos[pid].convocatoriaId != id
    ensures exists i :: 0 <= i < |GetAvailableConvocatorias(t, corder, porder, userId)|
                        && GetAvailableConvocatorias(t, corder, porder, userId)[i].id == id
  {
    var r := GetAvailableConvocatorias(t, corder, porder, userId);
    assert Available(t, userId, id);
    assert exists i :: 0 <= i < |r| && r[i].id == id;
  }

  /** A student of some project of a convocatoria never sees it offered. */
  lemma StudentExcluded(t: Tables, corder: seq<Id>, porder: seq<Id>, userId: Id, pid: Id)
    requires Lists(corder, t.convocatorias)
    requires pid in t.proyectos && userId in t.proyectos[pid].estudiantes
    ensures forall d :: d in GetAvailableConvocatorias(t, corder, porder, userId) ==>
              d.id != t.proyectos[pid].convocatoriaId
  {
  }

  // ---------------------------------------------------------------------------
  // Detail view
  // ---------------------------------------------------------------------------

  /** A project as the detail view selects it, with its kind label. */
  datatype ProyectoTipo = ProyectoTipo(
    id: Id,
    titulo: string,
    resumen: string,
    tiempoEjecucion: int,
    fechaInicio: Date,
    fechaFin: Date,
    proyectoAula: Option<Id>,
    proyectoSemillero: Option<Id>,
    tipoProyecto: string)

  datatype CriterioDetalle = CriterioDetalle(id: Id, descripcion: string, nombre: string, puntajeMax: int, puntajeMin: int)

  datatype RubricaDetalle = RubricaDetalle(id: Id, nombre: string, descripcion: string, criterios: seq<CriterioDetalle>)

  datatype ConvocatoriaDetalle = ConvocatoriaDetalle(
    id: Id,
    convocatoria: Convocatoria,
    proyectos: seq<ProyectoTipo>,
    rubrica: Option<RubricaDetalle>)

  function ProyectoTipoOf(t: Tables, id: Id): ProyectoTipo
    requires id in t.proyectos
  {
    var p := t.proyectos[id];
    ProyectoTipo(id, p.titulo, p.resumen, p.tiempoEjecucion, p.fechaInicio, p.fechaFin,
                 if Proyectos.AulaOf(t, p).Some? then p.proyectoAulaId else None,
                 if Proyectos.SemilleroOf(t, p).Some? then p.proyectoSemilleroId else None,
                 GeneralLabel(Proyectos.KindOf(t, p)))
  }

  /** The ids of a rubric's criteria, in the database's order of the criteria. */
  function CriterioIds(criterioOrder: seq<Id>, r: Rubrica): seq<Id> {
    Filter(criterioOrder, (id: Id) => id in r.criterios)
  }

  function RubricaDetalleOf(t: Tables, criterioOrder: seq<Id>, rubricaId: Option<Id>): Option<RubricaDetalle>
    requires Lists(criterioOrder, t.criterios)
  {
    if rubricaId.None? || rubricaId.value !in t.rubricas then None
    else
      var r := t.rubricas[rubricaId.value];
      var cs := CriterioIds(criterioOrder, r);
      Some(RubricaDetalle(rubricaId.value, r.nombre, r.descripcion,
        seq(|cs|, i requires 0 <= i < |cs| =>
          var c := t.criterios[cs[i]];
          CriterioDetalle(cs[i], c.descripcion, c.nombre, c.puntajeMax, c.puntajeMin))))
  }

  /** `findById`: NotFound for an unknown id; otherwise the convocatoria with its
      projects, each carrying its kind label (Aula over Semillero over General),
      and its rubric. */
  function FindById(t: Tables, porder: seq<Id>, criterioOrder: seq<Id>, id: Id): (r: Result<ConvocatoriaDetalle>)
    requires Lists(porder, t.proyectos) && Lists(criterioOrder, t.criterios)
    ensures r.Err? <==> id !in t.convocatorias
    ensures r.Err? ==> r.error == NotFound(ConvocatoriaNotFound)
    ensures r.Ok? ==> r.value.id == id && r.value.convocatoria == t.convocatorias[id]
  {
    if id !in t.convocatorias then Err(NotFound(ConvocatoriaNotFound))
    else
      var ps := ProyectosDe(t, porder, id);
      Ok(ConvocatoriaDetalle(id, t.convocatorias[id],
        seq(|ps|, i requires 0 <= i < |ps| => ProyectoTipoOf(t, ps[i])),
        RubricaDetalleOf(t, criterioOrder, t.convocatorias[id].rubricaId)))
  }

  /** The label mapping keeps the number and order of the convocatoria's projects
      and every selected field; it only adds the kind, which is Aula exactly when
      the project has an Aula detail, and Semillero exactly when it has a Semillero
      detail and no Aula detail. */
  lemma FindByIdLabels(t: Tables, porder: seq<Id>, criterioOrder: seq<Id>, id: Id)
    requires Lists(porder, t.proyectos) && Lists(criterioOrder, t.criterios)
    requires id in t.convocatorias
    ensures var ps := FindById(t, porder, criterioOrder, id).value.proyectos;
            var ids := ProyectosDe(t, porder, id);
            && |ps| == |ids|
            && forall i :: 0 <= i < |ps| ==>
                 var p := t.proyectos[ids[i]];
                 && ps[i].id == ids[i] && ps[i].titulo == p.titulo && ps[i].resumen == p.resumen
                 && ps[i].tiempoEjecucion == p.tiempoEjecucion
                 && ps[i].fechaInicio == p.fechaInicio && ps[i].fechaFin == p.fechaFin
                 && (ps[i].tipoProyecto == "Aula" <==> Proyectos.AulaOf(t, p).Some?)
                 && (ps[i].tipoProyecto == "Semillero" <==> Proyectos.AulaOf(t, p).None? && Proyectos.SemilleroOf(t, p).Some?)
                 && (ps[i].tipoProyecto == "General" <==> Proyectos.AulaOf(t, p).None? && Proyectos.SemilleroOf(t, p).None?)
  {
    var ps := FindById(t, porder, criterioOrder, id).value.proyectos;
    var ids := ProyectosDe(t, porder, id);
    forall i | 0 <= i < |ps|
      ensures var p := t.proyectos[ids[i]];
              && (ps[i].tipoProyecto == "Aula" <==> Proyectos.AulaOf(t, p).Some?)
              && (ps[i].tipoProyecto == "Semillero" <==> Proyectos.AulaOf(t, p).None? && Proyectos.SemilleroOf(t, p).Some?)
              && (ps[i].tipoProyecto == "General" <==> Proyectos.AulaOf(t, p).None? && Proyectos.SemilleroOf(t, p).None?)
    {
      var p := t.proyectos[ids[i]];
      LabelsDistinct(Proyectos.KindOf(t, p));
    }
  }

  /** The included rubric: present exactly when the convocatoria names an existing
      rubric, then that rubric's id, name and description, and exactly its criteria,
      once each and in the database's order, each with its stored fields. */
  lemma FindByIdRubrica(t: Tables, porder: seq<Id>, criterioOrder: seq<Id>, id: Id)
    requires Lists(porder, t.proyectos) && Lists(criterioOrder, t.criterios)
    requires id in t.convocatorias
    ensures var rid := t.convocatorias[id].rubricaId;
            var rd := FindById(t, porder, criterioOrder, id).value.rubrica;
            && (rd.Some? <==> rid.Some? && rid.value in t.rubricas)
            && (rd.Some? ==>
                  var r := t.rubricas[rid.value];
                  var cs := rd.value.criterios;
                  && rd.value.id == rid.value && rd.value.nombre == r.nombre && rd.value.descripcion == r.descripcion
                  && (forall k :: 0 <= k < |cs| ==>
                        && cs[k].id in r.criterios && cs[k].id in t.criterios
                        && cs[k].nombre == t.criterios[cs[k].id].nombre
                        && cs[k].descripcion == t.criterios[cs[k].id].descripcion
                        && cs[k].puntajeMin == t.criterios[cs[k].id].puntajeMin
                        && cs[k].puntajeMax == t.criterios[cs[k].id].puntajeMax)
                  && (forall c :: c in r.criterios && c in t.criterios ==> exists k :: 0 <= k < |cs| && cs[k].id == c)
                  && (forall j, k :: 0 <= j < k < |cs| ==> cs[j].id != cs[k].id))
  {
    var rid := t.convocatorias[id].rubricaId;
    if rid.Some? && rid.value in t.rubricas {
      var r := t.rubricas[rid.value];
      var ids := CriterioIds(criterioOrder, r);
      var cs := FindById(t, porder, criterioOrder, id).value.rubrica.value.criterios;
      assert |cs| == |ids| && forall k :: 0 <= k < |cs| ==> cs[k].id == ids[k];
      forall c | c in r.criterios && c in t.criterios
        ensures exists k :: 0 <= k < |cs| && cs[k].id == c
      {
        assert c in ids;
        var k :| 0 <= k < |ids| && ids[k] == c;
        assert cs[k].id == c;
      }
      FilterDistinct(criterioOrder, (c: Id) => c in r.criterios);
      assert ids == Filter(criterioOrder, (c: Id) => c in r.criterios);
      forall j, k | 0 <= j < k < |cs|
        ensures cs[j].id != cs[k].id
      {
        assert cs[j].id == ids[j] && cs[k].id == ids[k];
      }
    }
  }

  /** The three general labels are pairwise different, so a label names its kind. */
  lemma LabelsDistinct(k: Kind)
    ensures GeneralLabel(k) == "Aula" <==> k == Aula
    ensures GeneralLabel(k) == "Semillero" <==> k == Semillero
    ensures GeneralLabel(k) == "General" <==> k == Unspecified
  {
    assert "Aula"[0] != "Semillero"[0] && "Aula"[0] != "General"[0] && "Semillero"[0] != "General"[0];
  }
}
