/** The statistics behind the dashboard charts: projects per convocatoria,
    evaluated versus pending projects, table sizes and projects per kind. */
module Reportes {
  import opened Common
  import opened Store
  import opened Kind
  import Proyectos

  /** One convocatoria as the chart query returns it: its title and the number of
      its projects. */
  datatype ConvocatoriaCount = ConvocatoriaCount(titulo: string, proyectos: nat)

  /** One bar of the chart. */
  datatype ChartEntry = ChartEntry(name: string, value: int)

  /** The number of projects of a convocatoria (`_count.proyectos`). */
  function ProyectosDe(t: Tables, convocatoriaId: Id): nat {
    |ProjectsOf(t, convocatoriaId)|
  }

  function ProjectsOf(t: Tables, convocatoriaId: Id): set<Id> {
    set id | id in t.proyectos && t.proyectos[id].convocatoriaId == convocatoriaId
  }

  /** The chart query's rows, in the database's order of the convocatorias. */
  function CountRows(t: Tables, order: seq<Id>): (rows: seq<ConvocatoriaCount>)
    requires Lists(order, t.convocatorias)
    ensures |rows| == |order|
    ensures forall i :: 0 <= i < |order| ==>
              rows[i] == ConvocatoriaCount(t.convocatorias[order[i]].titulo, ProyectosDe(t, order[i]))
  {
    seq(|order|, i requires 0 <= i < |order| => ConvocatoriaCount(t.convocatorias[order[i]].titulo, ProyectosDe(t, order[i])))
  }

  /** What one loop iteration pushes. */
  function EntryFor(row: ConvocatoriaCount): seq<ChartEntry> {
    if row.proyectos > 0 then [ChartEntry(row.titulo, row.proyectos)] else []
  }

  /** The loop's result after the given rows, built front to back. */
  function Pushed(rows: seq<ConvocatoriaCount>): seq<ChartEntry> {
    if rows == [] then [] else Pushed(rows[..|rows| - 1]) + EntryFor(rows[|rows| - 1])
  }

  /** `getProyectosPorConvocatoria`: the loop over the convocatorias that keeps
      those with at least one project. */
  method GetProyectosPorConvocatoria(rows: seq<ConvocatoriaCount>) returns (filteredData: seq<ChartEntry>)
    ensures filteredData == Pushed(rows)
  {
    filteredData := [];
    for k := 0 to |rows|
      invariant filteredData == Pushed(rows[..k])
    {
      assert rows[..k + 1][..k] == rows[..k];
      if rows[k].proyectos > 0 {
        filteredData := filteredData + [ChartEntry(rows[k].titulo, rows[k].proyectos)];
      }
    }
    assert rows[..|rows|] == rows;
  }

  predicate HasProjects(row: ConvocatoriaCount) {
    row.proyectos > 0
  }

  function AsEntry(row: ConvocatoriaCount): ChartEntry {
    ChartEntry(row.titulo, row.proyectos)
  }

  /** The reference definition: the rows with projects, in order, as entries. */
  function WithProjects(rows: seq<ConvocatoriaCount>): (r: seq<ChartEntry>)
    ensures |r| == |Filter(rows, HasProjects)|
  {
    var kept := Filter(rows, HasProjects);
    seq(|kept|, i requires 0 <= i < |kept| => AsEntry(kept[i]))
  }

  /** The loop computes the reference definition. */
  lemma {:induction false} PushedIsFilter(rows: seq<ConvocatoriaCount>)
    ensures Pushed(rows) == WithProjects(rows)
    decreases |rows|
  {
    if rows != [] {
      var init, last := rows[..|rows| - 1], rows[|rows| - 1];
      assert rows == init + [last];
      PushedIsFilter(init);
      FilterAppend(init, [last], HasProjects);
      assert Filter([last], HasProjects) == if HasProjects(last) then [last] else [] by {
        assert [last][1..] == [];
      }
    }
  }

  /** Every bar has a positive value, there are no more bars than convocatorias,
      and a convocatoria gets a bar exactly when it has projects, with its title
      and its count. */
  lemma ChartProperties(rows: seq<ConvocatoriaCount>)
    ensures var out := Pushed(rows);
            && |out| <= |rows|
            && (forall i :: 0 <= i < |out| ==> out[i].value > 0)
            && (forall row :: row in rows && row.proyectos > 0 ==> AsEntry(row) in out)
            && (forall i :: 0 <= i < |out| ==> exists row :: row in rows && row.proyectos > 0 && out[i] == AsEntry(row))
  {
    PushedIsFilter(rows);
    var kept := Filter(rows, HasProjects);
    var out := Pushed(rows);
    forall row | row in rows && row.proyectos > 0
      ensures AsEntry(row) in out
    {
      assert row in kept;
      var k :| 0 <= k < |kept| && kept[k] == row;
      assert out[k] == AsEntry(row);
    }
    forall i | 0 <= i < |out|
      ensures out[i].value > 0
      ensures exists row :: row in rows && row.proyectos > 0 && out[i] == AsEntry(row)
    {
      assert kept[i] in kept;
      assert out[i] == AsEntry(kept[i]);
    }
  }

  // ---------------------------------------------------------------------------
  // Counts
  // ---------------------------------------------------------------------------

  datatype EstadoEvaluaciones = EstadoEvaluaciones(calificados: int, noCalificados: int)

  function EvaluatedIds(t: Tables): set<Id> {
    set id | id in t.proyectos && id in t.evaluacionByProyecto
  }

  /** `obtenerEstadoEvaluaciones`: the evaluated projects, and the total minus them. */
  function ObtenerEstadoEvaluaciones(t: Tables): (r: EstadoEvaluaciones)
    ensures r.calificados + r.noCalificados == |t.proyectos|
  {
    var total := |t.proyectos|;
    var calificados := |EvaluatedIds(t)|;
    EstadoEvaluaciones(calificados, total - calificados)
  }

  /** The evaluated projects are projects, so the pending count is the number of
      projects without an evaluation and is never negative. */
  lemma PendingCount(t: Tables)
    ensures ObtenerEstadoEvaluaciones(t).noCalificados == |t.proyectos.Keys - EvaluatedIds(t)| >= 0
  {
    var e := EvaluatedIds(t);
    assert e <= t.proyectos.Keys;
    assert t.proyectos.Keys == e + (t.proyectos.Keys - e);
    assert |t.proyectos.Keys| == |e| + |t.proyectos.Keys - e|;
  }

  datatype EstadisticasCantidad = EstadisticasCantidad(usuarios: nat, convocatorias: nat, proyectos: nat)

  /** `obtenerEstadisticasCantidad`. */
  function ObtenerEstadisticasCantidad(t: Tables): (r: EstadisticasCantidad)
    ensures r.usuarios == |t.users| && r.convocatorias == |t.convocatorias| && r.proyectos == |t.proyectos|
  {
    EstadisticasCantidad(|t.users|, |t.convocatorias|, |t.proyectos|)
  }

  datatype ProyectosPorTipo = ProyectosPorTipo(proyectosAula: nat, proyectosSemillero: nat)

  /** `getProyectosPorTipo`. */
  function GetProyectosPorTipo(t: Tables): (r: ProyectosPorTipo)
    ensures r.proyectosAula == |t.aulas| && r.proyectosSemillero == |t.semilleros|
  {
    ProyectosPorTipo(|t.aulas|, |t.semilleros|)
  }

  // ---------------------------------------------------------------------------
  // How the counts relate
  // ---------------------------------------------------------------------------

  /** A map from `a` onto `b` that is one-to-one shows the two sets equally large. */
  lemma {:induction false} SameSize(a: set<Id>, b: set<Id>, f: Id -> Id)
    requires forall x :: x in a ==> f(x) in b
    requires forall x, y :: x in a && y in a && f(x) == f(y) ==> x == y
    requires forall z :: z in b ==> exists x :: x in a && f(x) == z
    ensures |a| == |b|
    decreases |a|
  {
    if a == {} {
      assert forall z :: z !in b;
      assert b == {};
    } else {
      var x :| x in a;
      var a', b' := a - {x}, b - {f(x)};
      forall z | z in b'
        ensures exists y :: y in a' && f(y) == z
      {
        var y :| y in a && f(y) == z;
        assert y != x;
      }
      SameSize(a', b', f);
    }
  }

  /** A list without repetitions has as many members as entries. */
  lemma {:induction false} DistinctSize(s: seq<Id>)
    requires forall i, j :: 0 <= i < j < |s| ==> s[i] != s[j]
    ensures |Elems(s)| == |s|
  {
    if s != [] {
      var init := s[..|s| - 1];
      DistinctSize(init);
      assert Elems(s) == Elems(init) + {s[|s| - 1]};
      assert s[|s| - 1] !in Elems(init);
    }
  }

  /** The evaluated projects are exactly as many as the evaluations, since each
      evaluation belongs to an existing project and no project has two; the
      pending count is the dashboard's project total minus that number. */
  lemma EvaluatedCount(t: Tables)
    requires Linked(t)
    ensures ObtenerEstadoEvaluaciones(t).calificados == |t.evaluaciones|
    ensures ObtenerEstadoEvaluaciones(t).noCalificados == ObtenerEstadisticasCantidad(t).proyectos - |t.evaluaciones|
  {
    var f := (e: Id) => if e in t.evaluaciones then t.evaluaciones[e].proyectoId else 0;
    forall e | e in t.evaluaciones.Keys
      ensures f(e) in EvaluatedIds(t)
    {
      assert t.evaluacionByProyecto[EvaluadoProyecto(t.evaluaciones[e])] == e;
    }
    forall x, y | x in t.evaluaciones.Keys && y in t.evaluaciones.Keys && f(x) == f(y)
      ensures x == y
    {
      UniqueKey(t.evaluaciones, t.evaluacionByProyecto, EvaluadoProyecto, x, y);
    }
    forall z | z in EvaluatedIds(t)
      ensures exists x :: x in t.evaluaciones.Keys && f(x) == z
    {
      var e := t.evaluacionByProyecto[z];
      assert e in t.evaluaciones.Keys && f(e) == z;
    }
    SameSize(t.evaluaciones.Keys, EvaluatedIds(t), f);
  }

  /** The number of projects the chart rows report, in total. */
  function Total(rows: seq<ConvocatoriaCount>): nat {
    if rows == [] then 0 else Total(rows[..|rows| - 1]) + rows[|rows| - 1].proyectos
  }

  /** The sum of the chart's bars. */
  function ChartTotal(entries: seq<ChartEntry>): int {
    if entries == [] then 0 else ChartTotal(entries[..|entries| - 1]) + entries[|entries| - 1].value
  }

  /** Dropping the convocatorias without projects does not change the total. */
  lemma {:induction false} ChartKeepsTotal(rows: seq<ConvocatoriaCount>)
    ensures ChartTotal(Pushed(rows)) == Total(rows)
  {
    if rows != [] {
      var init := rows[..|rows| - 1];
      var last := rows[|rows| - 1];
      ChartKeepsTotal(init);
      var before := Pushed(init);
      assert Pushed(rows) == before + EntryFor(last);
      assert Total(rows) == Total(init) + last.proyectos;
      if last.proyectos > 0 {
        var after := before + [ChartEntry(last.titulo, last.proyectos)];
        assert after[..|after| - 1] == before;
        assert ChartTotal(after) == ChartTotal(before) + last.proyectos;
      } else {
        assert before + EntryFor(last) == before;
      }
    }
  }

  /** The projects of the convocatorias in `cs`. */
  function ProjectsIn(t: Tables, cs: set<Id>): set<Id> {
    set id | id in t.proyectos && t.proyectos[id].convocatoriaId in cs
  }

  lemma ProjectsInAdd(t: Tables, cs: set<Id>, c: Id)
    requires c !in cs
    ensures |ProjectsIn(t, cs + {c})| == |ProjectsIn(t, cs)| + ProyectosDe(t, c)
  {
    var own := ProjectsOf(t, c);
    assert ProjectsIn(t, cs + {c}) == ProjectsIn(t, cs) + own;
    assert ProjectsIn(t, cs) * own == {};
  }

  lemma {:induction false} TotalPrefix(t: Tables, order: seq<Id>, k: nat)
    requires Lists(order, t.convocatorias) && k <= |order|
    ensures Total(CountRows(t, order)[..k]) == |ProjectsIn(t, Elems(order[..k]))|
  {
    if k == 0 {
      assert Elems(order[..0]) == {};
      assert ProjectsIn(t, {}) == {};
    } else {
      var rows := CountRows(t, order);
      TotalPrefix(t, order, k - 1);
      TotalSnoc(rows, k);
      ElemsSnoc(order, k);
      ProjectsInAdd(t, Elems(order[..k - 1]), order[k - 1]);
    }
  }

  lemma TotalSnoc(rows: seq<ConvocatoriaCount>, k: nat)
    requires 0 < k <= |rows|
    ensures Total(rows[..k]) == Total(rows[..k - 1]) + rows[k - 1].proyectos
  {
    assert rows[..k][..k - 1] == rows[..k - 1];
  }

  lemma ElemsSnoc(order: seq<Id>, k: nat)
    requires 0 < k <= |order|
    requires forall i, j :: 0 <= i < j < |order| ==> order[i] != order[j]
    ensures Elems(order[..k]) == Elems(order[..k - 1]) + {order[k - 1]}
    ensures order[k - 1] !in Elems(order[..k - 1])
  {
    assert order[..k] == order[..k - 1] + [order[k - 1]];
  }

  /** The chart and the dashboard agree: there is one chart row per convocatoria,
      and, since every project belongs to an existing convocatoria, the bars add up
      to the project total. */
  lemma ChartMatchesTotals(t: Tables, order: seq<Id>)
    requires Lists(order, t.convocatorias) && ProyectosLinked(t.proyectos, t.convocatorias)
    ensures |CountRows(t, order)| == ObtenerEstadisticasCantidad(t).convocatorias
    ensures ChartTotal(Pushed(CountRows(t, order))) == ObtenerEstadisticasCantidad(t).proyectos
  {
    var rows := CountRows(t, order);
    DistinctSize(order);
    assert Elems(order) == t.convocatorias.Keys;
    TotalPrefix(t, order, |order|);
    assert rows[..|order|] == rows;
    assert order[..|order|] == order;
    assert ProjectsIn(t, t.convocatorias.Keys) == t.proyectos.Keys;
    ChartKeepsTotal(rows);
  }

  /** The projects of the tables that have an Aula (Semillero) record. */
  function WithAula(t: Tables): set<Id> {
    set id | id in t.proyectos && Proyectos.AulaOf(t, t.proyectos[id]).Some?
  }

  function WithSemillero(t: Tables): set<Id> {
    set id | id in t.proyectos && Proyectos.SemilleroOf(t, t.proyectos[id]).Some?
  }

  lemma AulaCount(t: Tables)
    requires DetailsLinked(t)
    ensures |t.aulas| == |WithAula(t)|
  {
    var f := (a: Id) => if a in t.aulas then t.aulas[a].proyectoId else 0;
    forall a | a in t.aulas.Keys
      ensures f(a) in WithAula(t)
    {
      assert t.proyectos[t.aulas[a].proyectoId].proyectoAulaId == Some(a);
    }
    forall z | z in WithAula(t)
      ensures exists x :: x in t.aulas.Keys && f(x) == z
    {
      var a := t.proyectos[z].proyectoAulaId.value;
      assert a in t.aulas.Keys && f(a) == z;
    }
    SameSize(t.aulas.Keys, WithAula(t), f);
  }

  lemma SemilleroCount(t: Tables)
    requires DetailsLinked(t)
    ensures |t.semilleros| == |WithSemillero(t)|
  {
    var f := (s: Id) => if s in t.semilleros then t.semilleros[s].proyectoId else 0;
    forall s | s in t.semilleros.Keys
      ensures f(s) in WithSemillero(t)
    {
      assert t.proyectos[t.semilleros[s].proyectoId].proyectoSemilleroId == Some(s);
    }
    forall z | z in WithSemillero(t)
      ensures exists x :: x in t.semilleros.Keys && f(x) == z
    {
      var s := t.proyectos[z].proyectoSemilleroId.value;
      assert s in t.semilleros.Keys && f(s) == z;
    }
    SameSize(t.semilleros.Keys, WithSemillero(t), f);
  }

  /** With one-to-one detail relations, the two counts are the numbers of projects
      that have an Aula and a Semillero record. When no project has both (which
      `createProyecto` refuses), they are the numbers of projects the services
      label Aula and Semillero, and together they do not exceed the project total. */
  lemma KindCounts(t: Tables)
    requires DetailsLinked(t)
    ensures GetProyectosPorTipo(t).proyectosAula == |WithAula(t)|
    ensures GetProyectosPorTipo(t).proyectosSemillero == |WithSemillero(t)|
    ensures WithAula(t) * WithSemillero(t) == {} ==>
              && WithAula(t) == (set id | id in t.proyectos && Proyectos.KindOf(t, t.proyectos[id]) == Aula)
              && WithSemillero(t) == (set id | id in t.proyectos && Proyectos.KindOf(t, t.proyectos[id]) == Semillero)
              && GetProyectosPorTipo(t).proyectosAula + GetProyectosPorTipo(t).proyectosSemillero
                 <= ObtenerEstadisticasCantidad(t).proyectos
  {
    AulaCount(t);
    SemilleroCount(t);
    if WithAula(t) * WithSemillero(t) == {} {
      KindSets(t);
      SubsetSize(WithAula(t) + WithSemillero(t), t.proyectos.Keys);
    }
  }

  lemma KindSets(t: Tables)
    requires WithAula(t) * WithSemillero(t) == {}
    ensures WithAula(t) == (set id | id in t.proyectos && Proyectos.KindOf(t, t.proyectos[id]) == Aula)
    ensures WithSemillero(t) == (set id | id in t.proyectos && Proyectos.KindOf(t, t.proyectos[id]) == Semillero)
  {
    forall id | id in t.proyectos
      ensures id in WithAula(t) <==> Proyectos.KindOf(t, t.proyectos[id]) == Aula
      ensures id in WithSemillero(t) <==> Proyectos.KindOf(t, t.proyectos[id]) == Semillero
    {
      var p := t.proyectos[id];
      assert id in WithAula(t) <==> Proyectos.AulaOf(t, p).Some?;
      assert id in WithSemillero(t) <==> Proyectos.SemilleroOf(t, p).Some?;
      assert id !in WithAula(t) * WithSemillero(t);
    }
  }

  lemma {:induction false} SubsetSize(a: set<Id>, b: set<Id>)
    requires a <= b
    ensures |a| <= |b|
  {
    assert b == a + (b - a);
  }
}
