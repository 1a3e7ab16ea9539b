/** The rubric service: creating a rubric under an upper-cased unique name, with
    its criteria found or created by upper-cased name, and listing rubrics with
    their names title-cased. */
module Rubricas {
  import opened Common
  import opened Chars
  import opened Store
  import opened StringUtils

  datatype CriterioDto = CriterioDto(nombre: string, puntajeMax: int, puntajeMin: int, descripcion: string)

  datatype CreateRubricaDto = CreateRubricaDto(
    nombre: string,
    descripcion: string,
    criterios: seq<CriterioDto>,
    convocatoriaId: Option<Id>)

  // ---------------------------------------------------------------------------
  // Criteria: find or create by upper-cased name
  // ---------------------------------------------------------------------------

  /** The upper-cased names the DTO criteria are looked up by. */
  function Keys(dtos: seq<CriterioDto>): (keys: seq<string>)
    ensures |keys| == |dtos| && forall i :: 0 <= i < |dtos| ==> keys[i] == Upper(dtos[i].nombre)
  {
    seq(|dtos|, i requires 0 <= i < |dtos| => Upper(dtos[i].nombre))
  }

  /** The criterion created for a DTO entry whose name is new, stored under the
      upper-cased name. */
  function NewCriterio(d: CriterioDto, nombre: string): Criterio {
    Criterio(nombre, d.puntajeMin, d.puntajeMax, d.descripcion)
  }

  /** The criterion built from the first DTO entry whose key is `n`. */
  function FirstNamed(dtos: seq<CriterioDto>, keys: seq<string>, n: string): Criterio
    requires |keys| == |dtos|
  {
    if dtos == [] then Criterio(n, 0, 0, "")
    else if keys[0] == n then NewCriterio(dtos[0], n)
    else FirstNamed(dtos[1..], keys[1..], n)
  }

  /** The criterion for a name is built from its first occurrence. */
  lemma {:induction false} FirstNamedAt(dtos: seq<CriterioDto>, keys: seq<string>, k: int)
    requires |keys| == |dtos| && 0 <= k < |dtos|
    requires forall m :: 0 <= m < k ==> keys[m] != keys[k]
    ensures FirstNamed(dtos, keys, keys[k]) == NewCriterio(dtos[k], keys[k])
  {
    if k > 0 {
      FirstNamedAt(dtos[1..], keys[1..], k - 1);
    }
  }

  /** After the first `k` DTO criteria, with keys `keys`, became `ids`, starting
      from the name index `index0` and criteria `rows0`: each is the criterion the
      index gives for its key; earlier criteria and names are untouched; a name
      unknown at the start was given a new criterion built from its first
      occurrence; and nothing else was added. */
  predicate CriteriosPrefix(dtos: seq<CriterioDto>, keys: seq<string>, k: int, ids: seq<Id>,
                            index0: map<string, Id>, rows0: map<Id, Criterio>,
                            index: map<string, Id>, rows: map<Id, Criterio>)
  {
    && |keys| == |dtos| && 0 <= k <= |dtos|
    && KeysIndexed(keys, k, ids, index)
    && Extends(index0, index) && Extends(rows0, rows)
    && NewNamed(dtos, keys, index0, rows0, index, rows)
    && AddedAmong(rows0, rows, ids)
    && NewSeen(keys, k, index0, index)
  }

  /** The first `k` keys are indexed, at the identifiers `ids` lists. */
  predicate KeysIndexed(keys: seq<string>, k: int, ids: seq<Id>, index: map<string, Id>) {
    && 0 <= k <= |keys| && |ids| == k
    && forall i :: 0 <= i < k ==> keys[i] in index && index[keys[i]] == ids[i]
  }

  /** A name that is new in `index` points at a new criterion built from the
      name's first occurrence. */
  predicate NewNamed(dtos: seq<CriterioDto>, keys: seq<string>,
                     index0: map<string, Id>, rows0: map<Id, Criterio>,
                     index: map<string, Id>, rows: map<Id, Criterio>)
  {
    && |keys| == |dtos|
    && forall n :: n in index && n !in index0 ==>
         index[n] !in rows0 && index[n] in rows && rows[index[n]] == FirstNamed(dtos, keys, n)
  }

  /** A name that is new in `index` is one of the first `k` keys. */
  predicate NewSeen(keys: seq<string>, k: int, index0: map<string, Id>, index: map<string, Id>) {
    forall n :: n in index && n !in index0 ==> exists i :: 0 <= i < k && i < |keys| && keys[i] == n
  }

  /** The criterion each key stands for, once every key is indexed. */
  function NamedIds(index: map<string, Id>, keys: seq<string>): (ids: seq<Id>)
    requires forall i :: 0 <= i < |keys| ==> keys[i] in index
    ensures |ids| == |keys| && forall i :: 0 <= i < |keys| ==> ids[i] == index[keys[i]]
  {
    seq(|keys|, i requires 0 <= i < |keys| => index[keys[i]])
  }

  /** One more DTO criterion keeps `CriteriosPrefix`. */
  lemma CriteriosStep(dtos: seq<CriterioDto>, keys: seq<string>, k: int, ids: seq<Id>,
                      index0: map<string, Id>, rows0: map<Id, Criterio>,
                      index: map<string, Id>, rows: map<Id, Criterio>,
                      id: Id, index': map<string, Id>, rows': map<Id, Criterio>)
    requires CriteriosPrefix(dtos, keys, k, ids, index0, rows0, index, rows) && k < |dtos|
    requires index' == index[keys[k] := id]
    requires keys[k] in index ==> id == index[keys[k]] && rows' == rows
    requires keys[k] !in index ==> id !in rows && rows' == rows[id := NewCriterio(dtos[k], keys[k])]
    ensures CriteriosPrefix(dtos, keys, k + 1, ids + [id], index0, rows0, index', rows')
  {
    if keys[k] in index {
      assert index' == index;
      KnownCriterio(dtos, keys, k, ids, index0, rows0, index, rows, id);
    } else {
      NewCriterioStep(dtos, keys, k, ids, index0, rows0, index, rows, id);
    }
  }

  /** A name already indexed resolves to the indexed criterion. */
  lemma KnownCriterio(dtos: seq<CriterioDto>, keys: seq<string>, k: int, ids: seq<Id>,
                      index0: map<string, Id>, rows0: map<Id, Criterio>,
                      index: map<string, Id>, rows: map<Id, Criterio>, id: Id)
    requires CriteriosPrefix(dtos, keys, k, ids, index0, rows0, index, rows) && k < |dtos|
    requires keys[k] in index && id == index[keys[k]]
    ensures CriteriosPrefix(dtos, keys, k + 1, ids + [id], index0, rows0, index, rows)
  {
    assert forall i :: 0 <= i < k ==> (ids + [id])[i] == ids[i];
  }

  /** A new name gets a new criterion. */
  lemma NewCriterioStep(dtos: seq<CriterioDto>, keys: seq<string>, k: int, ids: seq<Id>,
                        index0: map<string, Id>, rows0: map<Id, Criterio>,
                        index: map<string, Id>, rows: map<Id, Criterio>, id: Id)
    requires CriteriosPrefix(dtos, keys, k, ids, index0, rows0, index, rows) && k < |dtos|
    requires keys[k] !in index && id !in rows
    ensures CriteriosPrefix(dtos, keys, k + 1, ids + [id], index0, rows0,
                            index[keys[k] := id], rows[id := NewCriterio(dtos[k], keys[k])])
  {
    var n := keys[k];
    var ids' := ids + [id];
    var index' := index[n := id];
    var rows' := rows[id := NewCriterio(dtos[k], n)];
    forall i | 0 <= i < k
      ensures keys[i] != n && ids'[i] == ids[i]
    {
    }
    assert KeysIndexed(keys, k + 1, ids', index') by {
      forall i | 0 <= i < k + 1
        ensures keys[i] in index' && index'[keys[i]] == ids'[i]
      {
      }
    }
    assert Extends(index0, index') by {
      forall x | x in index0
        ensures x in index' && index'[x] == index0[x]
      {
        assert x != n;
      }
    }
    assert Extends(rows0, rows') by {
      forall x | x in rows0
        ensures x in rows' && rows'[x] == rows0[x]
      {
        assert x != id;
      }
    }
    assert NewNamed(dtos, keys, index0, rows0, index', rows') && NewSeen(keys, k + 1, index0, index') by {
      FirstNamedAt(dtos, keys, k);
      forall n' | n' in index' && n' !in index0
        ensures index'[n'] !in rows0 && index'[n'] in rows' && rows'[index'[n']] == FirstNamed(dtos, keys, n')
        ensures exists i :: 0 <= i < k + 1 && i < |keys| && keys[i] == n'
      {
        if n' == n {
          assert keys[k] == n';
        } else {
          assert index'[n'] == index[n'] && index[n'] in rows;
        }
      }
    }
    assert AddedAmong(rows0, rows', ids') by {
      forall x | x in rows' && x !in rows0
        ensures x in ids'
      {
        if x == id {
          assert ids'[k] == id;
        } else {
          assert x in ids;
        }
      }
    }
  }

  /** One DTO criterion: the existing criterion with the upper-cased name, left
      unchanged, or a new one. */
  method FindOrCreateCriterio(db: Store, d: CriterioDto) returns (id: Id)
    requires db.Valid()
    modifies db`criterios, db`criterioByNombre
    ensures db.Valid()
    ensures db.criterioByNombre == old(db.criterioByNombre)[Upper(d.nombre) := id]
    ensures Upper(d.nombre) in old(db.criterioByNombre) ==>
              id == old(db.criterioByNombre)[Upper(d.nombre)] && db.criterios == old(db.criterios)
    ensures Upper(d.nombre) !in old(db.criterioByNombre) ==>
              id !in old(db.criterios) && db.criterios == old(db.criterios)[id := NewCriterio(d, Upper(d.nombre))]
  {
    var n := Upper(d.nombre);
    if n in db.criterioByNombre {
      id := db.criterioByNombre[n];
    } else {
      id := db.InsertCriterio(NewCriterio(d, n));
    }
  }

  /** The criteria of `createRubrica`, one DTO entry after the other. */
  method FindOrCreateCriterios(db: Store, dtos: seq<CriterioDto>) returns (ids: seq<Id>)
    requires db.Valid()
    modifies db`criterios, db`criterioByNombre
    ensures db.Valid()
    ensures CriteriosPrefix(dtos, Keys(dtos), |dtos|, ids, old(db.criterioByNombre), old(db.criterios), db.criterioByNombre, db.criterios)
  {
    ghost var keys := Keys(dtos);
    ids := [];
    var k := 0;
    while k < |dtos|
      invariant db.Valid()
      invariant CriteriosPrefix(dtos, keys, k, ids, old(db.criterioByNombre), old(db.criterios), db.criterioByNombre, db.criterios)
    {
      ghost var index, rows := db.criterioByNombre, db.criterios;
      var id := FindOrCreateCriterio(db, dtos[k]);
      CriteriosStep(dtos, keys, k, ids, old(db.criterioByNombre), old(db.criterios), index, rows, id, db.criterioByNombre, db.criterios);
      ids := ids + [id];
      k := k + 1;
    }
  }

  // ---------------------------------------------------------------------------
  // createRubrica
  // ---------------------------------------------------------------------------

  /** The guards of `createRubrica`, in order: the upper-cased name must be new,
      then a given convocatoria must exist. */
  function RubricaGuard(nameTaken: bool, convocatoriaId: Option<Id>, convocatorias: map<Id, Convocatoria>): (e: Option<Error>)
    ensures nameTaken ==> e == Some(Conflict(RubricaExists))
    ensures !nameTaken && convocatoriaId.Some? && convocatoriaId.value !in convocatorias ==>
              e == Some(NotFound(ConvocatoriaNotFound))
    ensures e.None? <==> !nameTaken && (convocatoriaId.Some? ==> convocatoriaId.value in convocatorias)
  {
    if nameTaken then Some(Conflict(RubricaExists))
    else if convocatoriaId.Some? && convocatoriaId.value !in convocatorias then Some(NotFound(ConvocatoriaNotFound))
    else None
  }

  /** The first writes of `createRubrica`: the rubric without criteria, linked to
      the convocatoria when one was given. */
  method StoreRubrica(db: Store, nombre: string, descripcion: string, convocatoriaId: Option<Id>) returns (id: Id)
    requires db.Valid() && nombre !in db.rubricaByNombre
    requires convocatoriaId.Some? ==> convocatoriaId.value in db.convocatorias
    modifies db`rubricas, db`rubricaByNombre, db`convocatorias
    ensures db.Valid()
    ensures id !in old(db.rubricas) && db.rubricas == old(db.rubricas)[id := Rubrica(nombre, descripcion, {})]
    ensures db.rubricaByNombre == old(db.rubricaByNombre)[nombre := id]
    ensures convocatoriaId.None? ==> db.convocatorias == old(db.convocatorias)
    ensures convocatoriaId.Some? ==>
              var c := convocatoriaId.value;
              db.convocatorias == old(db.convocatorias)[c := old(db.convocatorias)[c].(rubricaId := Some(id))]
  {
    id := db.InsertRubrica(Rubrica(nombre, descripcion, {}));
    if convocatoriaId.Some? {
      var c := convocatoriaId.value;
      db.UpdateConvocatoria(c, db.convocatorias[c].(rubricaId := Some(id)));
    }
  }

  /** The criteria step of `createRubrica`: one criterion per DTO entry, found or
      created by upper-cased name, then all of them connected to the rubric `id`. */
  method ConnectDtoCriterios(db: Store, id: Id, dtos: seq<CriterioDto>) returns (ids: seq<Id>)
    requires db.Valid() && id in db.rubricas
    modifies db`rubricas, db`criterios, db`criterioByNombre
    ensures db.Valid()
    ensures CriteriosPrefix(dtos, Keys(dtos), |dtos|, ids, old(db.criterioByNombre), old(db.criterios), db.criterioByNombre, db.criterios)
    ensures db.rubricas == old(db.rubricas)[id := old(db.rubricas)[id].(criterios := old(db.rubricas)[id].criterios + Elems(ids))]
  {
    ids := FindOrCreateCriterios(db, dtos);
    db.ConnectCriterios(id, Elems(ids));
  }

  /** `createRubrica`. A rejected request writes nothing. Otherwise the rubric is
      stored under the upper-cased name, linked to the convocatoria if one was
      given, and connected to one criterion per DTO entry. */
  method CreateRubrica(db: Store, dto: CreateRubricaDto) returns (r: Result<Id>)
    requires db.Valid()
    modifies db`rubricas, db`rubricaByNombre, db`criterios, db`criterioByNombre, db`convocatorias
    ensures db.Valid()
    ensures var g := RubricaGuard(Upper(dto.nombre) in old(db.rubricaByNombre), dto.convocatoriaId, old(db.convocatorias));
            (g.Some? ==> r == Err(g.value) && unchanged(db)) && (g.None? ==> r.Ok?)
    ensures r.Ok? ==>
      var id := r.value;
      && id !in old(db.rubricas)
      && db.rubricaByNombre == old(db.rubricaByNombre)[Upper(dto.nombre) := id]
      && var keys := Keys(dto.criterios);
      && (forall i :: 0 <= i < |keys| ==> keys[i] in db.criterioByNombre)
      && var ids := NamedIds(db.criterioByNombre, keys);
      && CriteriosPrefix(dto.criterios, keys, |keys|, ids, old(db.criterioByNombre), old(db.criterios), db.criterioByNombre, db.criterios)
      && db.rubricas == old(db.rubricas)[id := Rubrica(Upper(dto.nombre), dto.descripcion, Elems(ids))]
      && (dto.convocatoriaId.None? ==> db.convocatorias == old(db.convocatorias))
      && (dto.convocatoriaId.Some? ==>
            var c := dto.convocatoriaId.value;
            db.convocatorias == old(db.convocatorias)[c := old(db.convocatorias)[c].(rubricaId := Some(id))])
  {
    var nombreUpper := Upper(dto.nombre);
    var guard := RubricaGuard(nombreUpper in db.rubricaByNombre, dto.convocatoriaId, db.convocatorias);
    if guard.Some? {
      return Err(guard.value);
    }
    var id := StoreRubrica(db, nombreUpper, dto.descripcion, dto.convocatoriaId);
    ghost var stored := db.rubricas;
    var ids := ConnectDtoCriterios(db, id, dto.criterios);
    assert ids == NamedIds(db.criterioByNombre, Keys(dto.criterios));
    assert stored[id].(criterios := stored[id].criterios + Elems(ids)) == Rubrica(nombreUpper, dto.descripcion, Elems(ids));
    Overwrite(old(db.rubricas), id, Rubrica(nombreUpper, dto.descripcion, {}), Rubrica(nombreUpper, dto.descripcion, Elems(ids)));
    r := Ok(id);
  }

  /** Two requests whose names differ only in letter case: once the first has
      created its rubric, the second is refused with Conflict and writes nothing. */
  method DuplicateNameScenario(db: Store, first: CreateRubricaDto, second: CreateRubricaDto) returns (r1: Result<Id>, r2: Result<Id>)
    requires db.Valid() && Lower(first.nombre) == Lower(second.nombre)
    modifies db`rubricas, db`rubricaByNombre, db`criterios, db`criterioByNombre, db`convocatorias
    ensures r1.Ok? ==> r2 == Err(Conflict(RubricaExists))
  {
    r1 := CreateRubrica(db, first);
    UpperIgnoresCase(first.nombre, second.nombre);
    r2 := CreateRubrica(db, second);
  }

  // ---------------------------------------------------------------------------
  // getFilteredRubricas
  // ---------------------------------------------------------------------------

  datatype CriterioView = CriterioView(id: Id, nombre: string, puntajeMax: int, puntajeMin: int, descripcion: string)

  datatype RubricaView = RubricaView(id: Id, nombre: string, descripcion: string, criterios: seq<CriterioView>)

  /** The rubrics the query selects: all of them without a search text (an
      absent or empty one), otherwise those whose name contains it, ignoring case. */
  function SelectedRubricas(t: Tables, order: seq<Id>, search: Option<string>): (ids: seq<Id>)
    requires Lists(order, t.rubricas)
    ensures search.None? || search.value == "" ==> ids == order
    ensures forall id :: id in ids <==>
              id in t.rubricas && (search.Some? && search.value != "" ==> ContainsInsensitive(t.rubricas[id].nombre, search.value))
  {
    if search.Some? && search.value != "" then
      Filter(order, (id: Id) => id in t.rubricas && ContainsInsensitive(t.rubricas[id].nombre, search.value))
    else
      order
  }

  /** A rubric's criteria, in the criteria table's order. */
  function CriteriosOf(t: Tables, criterioOrder: seq<Id>, rubrica: Rubrica): (ids: seq<Id>)
    ensures forall id :: id in ids <==> id in criterioOrder && id in rubrica.criterios
  {
    Filter(criterioOrder, (id: Id) => id in rubrica.criterios)
  }

  function CriterioViewOf(t: Tables, id: Id): CriterioView
    requires id in t.criterios
  {
    var c := t.criterios[id];
    CriterioView(id, CapitalizeSentence(c.nombre), c.puntajeMax, c.puntajeMin, c.descripcion)
  }

  function RubricaViewOf(t: Tables, criterioOrder: seq<Id>, id: Id): RubricaView
    requires id in t.rubricas && Lists(criterioOrder, t.criterios)
  {
    var r := t.rubricas[id];
    var cs := CriteriosOf(t, criterioOrder, r);
    RubricaView(id, CapitalizeSentence(r.nombre), r.descripcion,
                seq(|cs|, i requires 0 <= i < |cs| => CriterioViewOf(t, cs[i])))
  }

  /** `getFilteredRubricas`. */
  function GetFilteredRubricas(t: Tables, order: seq<Id>, criterioOrder: seq<Id>, search: Option<string>): (r: seq<RubricaView>)
    requires Lists(order, t.rubricas) && Lists(criterioOrder, t.criterios)
    ensures var ids := SelectedRubricas(t, order, search);
            |r| == |ids| && forall i :: 0 <= i < |ids| ==> r[i] == RubricaViewOf(t, criterioOrder, ids[i])
  {
    var ids := SelectedRubricas(t, order, search);
    seq(|ids|, i requires 0 <= i < |ids| => RubricaViewOf(t, criterioOrder, ids[i]))
  }

  /** The listing changes nothing but names: every rubric and criterion keeps its
      identifier, description and scores, names become their title-cased form, and
      each rubric lists exactly its own criteria. */
  lemma ListingOnlyRenames(t: Tables, order: seq<Id>, criterioOrder: seq<Id>, search: Option<string>, i: int, j: int)
    requires Lists(order, t.rubricas) && Lists(criterioOrder, t.criterios)
    requires 0 <= i < |GetFilteredRubricas(t, order, criterioOrder, search)|
    ensures var v := GetFilteredRubricas(t, order, criterioOrder, search)[i];
            && v.id in t.rubricas
            && v.nombre == CapitalizeSentence(t.rubricas[v.id].nombre)
            && v.descripcion == t.rubricas[v.id].descripcion
            && (forall c :: c in t.rubricas[v.id].criterios && c in t.criterios ==>
                  exists k :: 0 <= k < |v.criterios| && v.criterios[k].id == c)
            && (0 <= j < |v.criterios| ==>
                  var c := v.criterios[j];
                  && c.id in t.rubricas[v.id].criterios && c.id in t.criterios
                  && c.nombre == CapitalizeSentence(t.criterios[c.id].nombre)
                  && c.puntajeMax == t.criterios[c.id].puntajeMax
                  && c.puntajeMin == t.criterios[c.id].puntajeMin
                  && c.descripcion == t.criterios[c.id].descripcion)
  {
    var ids := SelectedRubricas(t, order, search);
    var v := GetFilteredRubricas(t, order, criterioOrder, search)[i];
    var cs := CriteriosOf(t, criterioOrder, t.rubricas[v.id]);
    forall c | c in t.rubricas[v.id].criterios && c in t.criterios
      ensures exists k :: 0 <= k < |v.criterios| && v.criterios[k].id == c
    {
      var k :| 0 <= k < |cs| && cs[k] == c;
      assert v.criterios[k].id == c;
    }
  }
}
