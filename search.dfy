/** The global search: convocatorias and projects whose title contains the query,
    ignoring case, as one list. */
module Search {
  import opened Common
  import opened Chars
  import opened Kind
  import opened Store
  import Proyectos

  datatype Hit =
    | ConvocatoriaHit(id: Id, titulo: string, tipo: string, fechaInicio: Date, fechaFin: Date)
    | ProyectoHit(id: Id, titulo: string, resumen: string, tipo: string, convocatoria: string,
                  tipoProyecto: string, fechaInicio: Date, fechaFin: Date)

  /** The convocatorias whose title matches, in the database's order. */
  function MatchingConvocatorias(t: Tables, corder: seq<Id>, query: string): (ids: seq<Id>)
    ensures forall id :: id in ids <==> id in corder && id in t.convocatorias && ContainsInsensitive(t.convocatorias[id].titulo, query)
    ensures forall i :: 0 <= i < |ids| ==> ids[i] in t.convocatorias
  {
    Filter(corder, (id: Id) => id in t.convocatorias && ContainsInsensitive(t.convocatorias[id].titulo, query))
  }

  /** The projects whose title matches, in the database's order. */
  function MatchingProyectos(t: Tables, porder: seq<Id>, query: string): (ids: seq<Id>)
    ensures forall id :: id in ids <==> id in porder && id in t.proyectos && ContainsInsensitive(t.proyectos[id].titulo, query)
    ensures forall i :: 0 <= i < |ids| ==> ids[i] in t.proyectos
  {
    Filter(porder, (id: Id) => id in t.proyectos && ContainsInsensitive(t.proyectos[id].titulo, query))
  }

  function ConvocatoriaHitOf(t: Tables, id: Id): Hit
    requires id in t.convocatorias
  {
    var c := t.convocatorias[id];
    ConvocatoriaHit(id, c.titulo, "Convocatoria", c.fechaInicio, c.fechaFin)
  }

  /** The title of a project's convocatoria, or "Sin convocatoria" without one. */
  function ConvocatoriaLabel(t: Tables, p: Proyecto): string {
    if p.convocatoriaId in t.convocatorias then t.convocatorias[p.convocatoriaId].titulo else "Sin convocatoria"
  }

  function ProyectoHitOf(t: Tables, id: Id): Hit
    requires id in t.proyectos
  {
    var p := t.proyectos[id];
    ProyectoHit(id, p.titulo, p.resumen, "Proyecto", ConvocatoriaLabel(t, p),
                GeneralLabel(Proyectos.KindOf(t, p)), p.fechaInicio, p.fechaFin)
  }

  function ConvocatoriaHits(t: Tables, corder: seq<Id>, query: string): (r: seq<Hit>)
    ensures |r| == |MatchingConvocatorias(t, corder, query)|
  {
    var cs := MatchingConvocatorias(t, corder, query);
    seq(|cs|, i requires 0 <= i < |cs| => ConvocatoriaHitOf(t, cs[i]))
  }

  function ProyectoHits(t: Tables, porder: seq<Id>, query: string): (r: seq<Hit>)
    ensures |r| == |MatchingProyectos(t, porder, query)|
  {
    var ps := MatchingProyectos(t, porder, query);
    seq(|ps|, i requires 0 <= i < |ps| => ProyectoHitOf(t, ps[i]))
  }

  /** `search`: nothing for an empty query; otherwise the matching convocatorias
      followed by the matching projects. */
  function Search(t: Tables, corder: seq<Id>, porder: seq<Id>, query: string): (r: seq<Hit>)
    ensures query == "" ==> r == []
    ensures query != "" ==> r == ConvocatoriaHits(t, corder, query) + ProyectoHits(t, porder, query)
    ensures query != "" ==>
              |r| == |MatchingConvocatorias(t, corder, query)| + |MatchingProyectos(t, porder, query)|
  {
    if query == "" then [] else ConvocatoriaHits(t, corder, query) + ProyectoHits(t, porder, query)
  }

  /** Each convocatoria hit is labelled "Convocatoria" and carries the matching
      convocatoria's id and title, in the database's order. */
  lemma ConvocatoriaHitsLayout(t: Tables, corder: seq<Id>, query: string)
    ensures var r := ConvocatoriaHits(t, corder, query);
            var cs := MatchingConvocatorias(t, corder, query);
            forall i :: 0 <= i < |cs| ==>
              r[i].ConvocatoriaHit? && r[i].tipo == "Convocatoria" && r[i].id == cs[i]
              && r[i].titulo == t.convocatorias[cs[i]].titulo
  {
  }

  /** Each project hit is labelled "Proyecto" and carries the matching project's id
      and title, its convocatoria's title (or "Sin convocatoria") and its kind
      (Aula over Semillero over General), in the database's order. */
  lemma ProyectoHitsLayout(t: Tables, porder: seq<Id>, query: string)
    ensures var r := ProyectoHits(t, porder, query);
            var ps := MatchingProyectos(t, porder, query);
            forall i :: 0 <= i < |ps| ==>
              var p := t.proyectos[ps[i]];
              && r[i].ProyectoHit? && r[i].tipo == "Proyecto" && r[i].id == ps[i] && r[i].titulo == p.titulo
              && (p.convocatoriaId in t.convocatorias ==> r[i].convocatoria == t.convocatorias[p.convocatoriaId].titulo)
              && (p.convocatoriaId !in t.convocatorias ==> r[i].convocatoria == "Sin convocatoria")
              && r[i].tipoProyecto == GeneralLabel(ServiceKind(Proyectos.AulaOf(t, p).Some?, Proyectos.SemilleroOf(t, p).Some?))
  {
  }

  /** A convocatoria is among the convocatoria hits exactly when the query occurs
      in its title, ignoring case. */
  lemma ConvocatoriaFound(t: Tables, corder: seq<Id>, query: string, id: Id)
    requires Lists(corder, t.convocatorias) && id in t.convocatorias
    ensures ContainsInsensitive(t.convocatorias[id].titulo, query) <==>
            exists h :: h in ConvocatoriaHits(t, corder, query) && h.id == id
  {
    var r := ConvocatoriaHits(t, corder, query);
    var cs := MatchingConvocatorias(t, corder, query);
    if ContainsInsensitive(t.convocatorias[id].titulo, query) {
      var i :| 0 <= i < |cs| && cs[i] == id;
      assert r[i] in r;
    }
    if h :| h in r && h.id == id {
      var i :| 0 <= i < |r| && r[i] == h;
      assert cs[i] in cs;
    }
  }

  /** A project is among the project hits exactly when the query occurs in its
      title, ignoring case. */
  lemma ProyectoFound(t: Tables, porder: seq<Id>, query: string, id: Id)
    requires Lists(porder, t.proyectos) && id in t.proyectos
    ensures ContainsInsensitive(t.proyectos[id].titulo, query) <==>
            exists h :: h in ProyectoHits(t, porder, query) && h.id == id
  {
    var r := ProyectoHits(t, porder, query);
    var ps := MatchingProyectos(t, porder, query);
    if ContainsInsensitive(t.proyectos[id].titulo, query) {
      var i :| 0 <= i < |ps| && ps[i] == id;
      assert r[i] in r;
    }
    if h :| h in r && h.id == id {
      var i :| 0 <= i < |r| && r[i] == h;
      assert ps[i] in ps;
    }
  }

  /** In the whole result, a record is found exactly when the query occurs in its
      title, ignoring case. */
  lemma SearchFinds(t: Tables, corder: seq<Id>, porder: seq<Id>, query: string)
    requires query != ""
    requires Lists(corder, t.convocatorias) && Lists(porder, t.proyectos)
    ensures var r := Search(t, corder, porder, query);
            && (forall id :: id in t.convocatorias ==>
                  (ContainsInsensitive(t.convocatorias[id].titulo, query) <==>
                   exists h :: h in r && h.ConvocatoriaHit? && h.id == id))
            && (forall id :: id in t.proyectos ==>
                  (ContainsInsensitive(t.proyectos[id].titulo, query) <==>
                   exists h :: h in r && h.ProyectoHit? && h.id == id))
  {
    var cr := ConvocatoriaHits(t, corder, query);
    var pr := ProyectoHits(t, porder, query);
    var r := Search(t, corder, porder, query);
    assert forall h :: h in cr ==> h.ConvocatoriaHit?;
    assert forall h :: h in pr ==> h.ProyectoHit?;
    forall id | id in t.convocatorias
      ensures ContainsInsensitive(t.convocatorias[id].titulo, query) <==>
              exists h :: h in r && h.ConvocatoriaHit? && h.id == id
    {
      ConvocatoriaFound(t, corder, query, id);
    }
    forall id | id in t.proyectos
      ensures ContainsInsensitive(t.proyectos[id].titulo, query) <==>
              exists h :: h in r && h.ProyectoHit? && h.id == id
    {
      ProyectoFound(t, porder, query, id);
    }
  }
}
