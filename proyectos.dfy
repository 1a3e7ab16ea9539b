/** The project service: creating a project with its students and its Aula or
    Semillero details, assigning an evaluator, and the project listings. */
module Proyectos {
  import opened Common
  import opened Kind
  import opened Store

  datatype EstudianteDto = EstudianteDto(fullname: string, email: string)

  datatype CreateProyectoDto = CreateProyectoDto(
    titulo: string,
    resumen: string,
    convocatoriaId: Id,
    tiempoEjecucion: int,
    documentoUrl: Option<string>,
    fechaInicio: Date,
    fechaFin: Date,
    proyectoAula: Option<AulaDetails>,
    estudiantes: Option<seq<EstudianteDto>>,
    proyectoSemillero: Option<SemilleroDetails>)

  // ---------------------------------------------------------------------------
  // createProyecto
  // ---------------------------------------------------------------------------

  /** The full name of the first DTO student with the given e-mail. */
  function NameFor(ests: seq<EstudianteDto>, email: string): string {
    if ests == [] then ""
    else if ests[0].email == email then ests[0].fullname
    else NameFor(ests[1..], email)
  }

  /** The name for an e-mail is that of its first occurrence. */
  lemma {:induction false} NameForFirst(ests: seq<EstudianteDto>, k: int)
    requires 0 <= k < |ests|
    requires forall m :: 0 <= m < k ==> ests[m].email != ests[k].email
    ensures NameFor(ests, ests[k].email) == ests[k].fullname
  {
    if k > 0 {
      NameForFirst(ests[1..], k - 1);
    }
  }

  /** The user a DTO student resolves to, once every e-mail is known. */
  function Resolved(index: map<string, Id>, ests: seq<EstudianteDto>): (ids: seq<Id>)
    requires forall i :: 0 <= i < |ests| ==> ests[i].email in index
    ensures |ids| == |ests|
  {
    seq(|ests|, i requires 0 <= i < |ests| => index[ests[i].email])
  }

  /** One DTO student: the existing user with that e-mail, or a new user with the
      single role ESTUDIANTE. */
  method ResolveEstudiante(db: Store, e: EstudianteDto) returns (id: Id)
    requires db.Valid()
    modifies db`users, db`emailIndex
    ensures db.Valid()
    ensures db.emailIndex == old(db.emailIndex)[e.email := id]
    ensures e.email in old(db.emailIndex) ==> id == old(db.emailIndex)[e.email] && db.users == old(db.users)
    ensures e.email !in old(db.emailIndex) ==>
              id !in old(db.users) && db.users == old(db.users)[id := User(e.fullname, e.email, {Estudiante})]
  {
    var found := db.UserByEmail(e.email);
    if found.Some? {
      id := found.value;
    } else {
      id := db.InsertUser(User(e.fullname, e.email, {Estudiante}));
    }
  }

  /** After resolving the first `k` DTO students into `ids`, starting from the
      e-mail index `index0` and users `users0`: each resolved student is the user
      the index gives for its e-mail; earlier users and e-mails are untouched; an
      e-mail unknown at the start was given a new user, named after its first
      occurrence; and nothing else was added. */
  predicate ResolvedPrefix(ests: seq<EstudianteDto>, k: int, ids: seq<Id>,
                           index0: map<string, Id>, users0: map<Id, User>,
                           index: map<string, Id>, users: map<Id, User>)
  {
    && EmailsIndexed(ests, k, ids, index)
    && Extends(index0, index) && Extends(users0, users)
    && NewStudents(ests, index0, users0, index, users)
    && AddedAmong(users0, users, ids)
    && EmailsSeen(ests, k, index0, index)
  }

  /** The first `k` students' e-mails are indexed, at the identifiers `ids` lists. */
  predicate EmailsIndexed(ests: seq<EstudianteDto>, k: int, ids: seq<Id>, index: map<string, Id>) {
    && 0 <= k <= |ests| && |ids| == k
    && forall i :: 0 <= i < k ==> ests[i].email in index && index[ests[i].email] == ids[i]
  }

  /** An e-mail that is new in `index` points at a new student user named after
      the e-mail's first occurrence. */
  predicate NewStudents(ests: seq<EstudianteDto>, index0: map<string, Id>, users0: map<Id, User>,
                        index: map<string, Id>, users: map<Id, User>)
  {
    forall e :: e in index && e !in index0 ==>
      && index[e] !in users0 && index[e] in users
      && users[index[e]] == User(NameFor(ests, e), e, {Estudiante})
  }

  /** An e-mail that is new in `index` is one of the first `k` students'. */
  predicate EmailsSeen(ests: seq<EstudianteDto>, k: int, index0: map<string, Id>, index: map<string, Id>) {
    forall e :: e in index && e !in index0 ==> exists i :: 0 <= i < k && i < |ests| && ests[i].email == e
  }

  /** One more student keeps `ResolvedPrefix`. */
  lemma ResolvedStep(ests: seq<EstudianteDto>, k: int, ids: seq<Id>,
                     index0: map<string, Id>, users0: map<Id, User>,
                     index: map<string, Id>, users: map<Id, User>,
                     id: Id, index': map<string, Id>, users': map<Id, User>)
    requires ResolvedPrefix(ests, k, ids, index0, users0, index, users) && k < |ests|
    requires index' == index[ests[k].email := id]
    requires ests[k].email in index ==> id == index[ests[k].email] && users' == users
    requires ests[k].email !in index ==>
               id !in users && users' == users[id := User(ests[k].fullname, ests[k].email, {Estudiante})]
    ensures ResolvedPrefix(ests, k + 1, ids + [id], index0, users0, index', users')
  {
    if ests[k].email in index {
      assert index' == index;
      KnownStep(ests, k, ids, index0, users0, index, users, id);
    } else {
      NewStep(ests, k, ids, index0, users0, index, users, id);
    }
  }

  /** A student whose e-mail is already indexed resolves to the indexed user. */
  lemma KnownStep(ests: seq<EstudianteDto>, k: int, ids: seq<Id>,
                  index0: map<string, Id>, users0: map<Id, User>,
                  index: map<string, Id>, users: map<Id, User>, id: Id)
    requires ResolvedPrefix(ests, k, ids, index0, users0, index, users) && k < |ests|
    requires ests[k].email in index && id == index[ests[k].email]
    ensures ResolvedPrefix(ests, k + 1, ids + [id], index0, users0, index, users)
  {
    assert forall i :: 0 <= i < k ==> (ids + [id])[i] == ids[i];
  }

  /** A student with an unknown e-mail gets a new user. */
  lemma NewStep(ests: seq<EstudianteDto>, k: int, ids: seq<Id>,
                index0: map<string, Id>, users0: map<Id, User>,
                index: map<string, Id>, users: map<Id, User>, id: Id)
    requires ResolvedPrefix(ests, k, ids, index0, users0, index, users) && k < |ests|
    requires ests[k].email !in index && id !in users
    ensures var e := ests[k];
            ResolvedPrefix(ests, k + 1, ids + [id], index0, users0,
                           index[e.email := id], users[id := User(e.fullname, e.email, {Estudiante})])
  {
    var e := ests[k];
    var ids' := ids + [id];
    var index' := index[e.email := id];
    var users' := users[id := User(e.fullname, e.email, {Estudiante})];
    forall i | 0 <= i < k
      ensures ests[i].email != e.email && ids'[i] == ids[i]
    {
    }
    assert EmailsIndexed(ests, k + 1, ids', index') by {
      forall i | 0 <= i < k + 1
        ensures ests[i].email in index' && index'[ests[i].email] == ids'[i]
      {
      }
    }
    assert Extends(index0, index') by {
      forall x | x in index0
        ensures x in index' && index'[x] == index0[x]
      {
        assert x != e.email;
      }
    }
    assert Extends(users0, users') by {
      forall x | x in users0
        ensures x in users' && users'[x] == users0[x]
      {
        assert x != id;
      }
    }
    assert NewStudents(ests, index0, users0, index', users') && EmailsSeen(ests, k + 1, index0, index') by {
      NameForFirst(ests, k);
      forall e' | e' in index' && e' !in index0
        ensures index'[e'] !in users0 && index'[e'] in users' && users'[index'[e']] == User(NameFor(ests, e'), e', {Estudiante})
        ensures exists i :: 0 <= i < k + 1 && i < |ests| && ests[i].email == e'
      {
        if e' == e.email {
          assert ests[k].email == e';
        } else {
          assert index'[e'] == index[e'] && index[e'] in users;
        }
      }
    }
    assert AddedAmong(users0, users', ids') by {
      forall x | x in users' && x !in users0
        ensures x in ids'
      {
        if x == id {
          assert ids'[k] == id;
        } else {
          assert x in ids;
        }
      }
    }
  }

  /** The student resolution of `createProyecto`, one DTO entry after the other. */
  method ResolveEstudiantes(db: Store, ests: seq<EstudianteDto>) returns (ids: seq<Id>)
    requires db.Valid()
    modifies db`users, db`emailIndex
    ensures db.Valid()
    ensures ResolvedPrefix(ests, |ests|, ids, old(db.emailIndex), old(db.users), db.emailIndex, db.users)
    ensures forall i :: 0 <= i < |ests| ==> ests[i].email in db.emailIndex
    ensures ids == Resolved(db.emailIndex, ests)
  {
    ids := [];
    var k := 0;
    while k < |ests|
      invariant db.Valid()
      invariant ResolvedPrefix(ests, k, ids, old(db.emailIndex), old(db.users), db.emailIndex, db.users)
    {
      ghost var index, users := db.emailIndex, db.users;
      var id := ResolveEstudiante(db, ests[k]);
      ResolvedStep(ests, k, ids, old(db.emailIndex), old(db.users), index, users, id, db.emailIndex, db.users);
      ids := ids + [id];
      k := k + 1;
    }
  }

  /** `x` is absent from the list or the list is empty, as the guard
      `!dto.estudiantes || dto.estudiantes.length === 0` reads it. */
  predicate NoEstudiantesGiven(ests: Option<seq<EstudianteDto>>) {
    ests.None? || |ests.value| == 0
  }

  /** The guards of `createProyecto`, in the order they are checked. */
  function CreateGuard(convocatoriaExists: bool, dto: CreateProyectoDto): (e: Option<Error>)
    ensures e.None? <==> convocatoriaExists
                         && !(dto.proyectoAula.Some? && dto.proyectoSemillero.Some?)
                         && !NoEstudiantesGiven(dto.estudiantes)
    ensures !convocatoriaExists ==> e == Some(BadRequest(ConvocatoriaMissing))
    ensures convocatoriaExists && dto.proyectoAula.Some? && dto.proyectoSemillero.Some? ==>
              e == Some(BadRequest(AulaAndSemillero))
    ensures e == Some(BadRequest(NoEstudiantes)) <==>
              convocatoriaExists && !(dto.proyectoAula.Some? && dto.proyectoSemillero.Some?)
              && NoEstudiantesGiven(dto.estudiantes)
  {
    if !convocatoriaExists then Some(BadRequest(ConvocatoriaMissing))
    else if dto.proyectoAula.Some? && dto.proyectoSemillero.Some? then Some(BadRequest(AulaAndSemillero))
    else if NoEstudiantesGiven(dto.estudiantes) then Some(BadRequest(NoEstudiantes))
    else None
  }

  /** `xs` without the occurrences of `x`, in order. */
  function Without(xs: seq<Id>, x: Id): (r: seq<Id>)
    ensures |r| <= |xs|
    ensures forall y :: y in r <==> y in xs && y != x
  {
    if xs == [] then []
    else (if xs[0] == x then [] else [xs[0]]) + Without(xs[1..], x)
  }

  /** The notifications `createProyecto` sends for a new project: the admin (when
      one exists), the creator, then every connected student other than the
      creator. */
  function CreatedNotices(admin: Option<Id>, creator: Id, connected: seq<Id>, proyectoId: Id, titulo: string): (ns: seq<Notification>)
  {
    var title := "Nuevo proyecto: " + titulo;
    var others := Without(connected, creator);
    (if admin.Some? then [Notification(admin.value, title, ProjectCreatedAdmin, proyectoId)] else [])
    + [Notification(creator, title, ProjectCreatedOwner, proyectoId)]
    + seq(|others|, i requires 0 <= i < |others| => Notification(others[i], title, AddedAsParticipant, proyectoId))
  }

  /** Who is told what about a new project: the admin notice exists iff an admin
      does and comes first; the creator gets the one owner notice, right after it;
      every other connected student, and only they, is told they were added. */
  lemma CreatedNoticesRecipients(admin: Option<Id>, creator: Id, connected: seq<Id>, proyectoId: Id, titulo: string)
    ensures var ns := CreatedNotices(admin, creator, connected, proyectoId, titulo);
            var k := if admin.Some? then 1 else 0;
            && |ns| == k + 1 + |Without(connected, creator)|
            && (forall i :: 0 <= i < |ns| ==> ns[i].proyectoId == proyectoId && ns[i].title == "Nuevo proyecto: " + titulo)
            && (forall i :: 0 <= i < |ns| ==> (ns[i].notice == ProjectCreatedAdmin <==> admin.Some? && i == 0))
            && (admin.Some? ==> ns[0].userId == admin.value)
            && (forall i :: 0 <= i < |ns| ==> (ns[i].notice == ProjectCreatedOwner <==> i == k))
            && ns[k].userId == creator
            && (forall i :: 0 <= i < |ns| && ns[i].notice == AddedAsParticipant ==>
                  ns[i].userId in connected && ns[i].userId != creator)
            && (forall x :: x in connected && x != creator ==>
                  exists i :: k < i < |ns| && ns[i].userId == x && ns[i].notice == AddedAsParticipant)
  {
    var ns := CreatedNotices(admin, creator, connected, proyectoId, titulo);
    var k := if admin.Some? then 1 else 0;
    var others := Without(connected, creator);
    var title := "Nuevo proyecto: " + titulo;
    var head := if admin.Some? then [Notification(admin.value, title, ProjectCreatedAdmin, proyectoId)] else [];
    var owner := Notification(creator, title, ProjectCreatedOwner, proyectoId);
    var tail := seq(|others|, i requires 0 <= i < |others| => Notification(others[i], title, AddedAsParticipant, proyectoId));
    assert ns == head + [owner] + tail;
    assert |ns| == k + 1 + |others|;
    forall i | 0 <= i < |ns|
      ensures ns[i].proyectoId == proyectoId && ns[i].title == title
      ensures ns[i].notice == ProjectCreatedAdmin <==> admin.Some? && i == 0
      ensures ns[i].notice == ProjectCreatedOwner <==> i == k
      ensures ns[i].notice == AddedAsParticipant ==> ns[i].userId in connected && ns[i].userId != creator
    {
      if i < k {
        assert ns[i] == head[i];
      } else if i == k {
        assert ns[i] == owner;
      } else {
        assert ns[i] == tail[i - k - 1];
        assert others[i - k - 1] in others;
      }
    }
    assert ns[k] == owner;
    forall x | x in connected && x != creator
      ensures exists i :: k < i < |ns| && ns[i].userId == x && ns[i].notice == AddedAsParticipant
    {
      var j :| 0 <= j < |others| && others[j] == x;
      assert ns[k + 1 + j] == tail[j];
    }
  }

  /** The record `createProyecto` stores, once the students and the detail record
      are known. */
  function NewProyecto(dto: CreateProyectoDto, estudiantes: set<Id>, aulaId: Option<Id>, semilleroId: Option<Id>): Proyecto {
    Proyecto(dto.titulo, dto.resumen, dto.convocatoriaId, dto.tiempoEjecucion, dto.fechaInicio,
             dto.fechaFin, dto.documentoUrl, estudiantes, aulaId, semilleroId, None)
  }

  /** The project table went from `proyectos0` to `proyectos` by adding the row
      `id` built from `dto` with `estudiantes` connected, and the detail tables by
      adding the Aula or Semillero record the request carries (pointing back at
      `id`), under the fresh identifier the project row links to. */
  predicate ProyectoStored(dto: CreateProyectoDto, estudiantes: set<Id>, id: Id,
                           proyectos0: map<Id, Proyecto>, aulas0: map<Id, ProyectoAula>, semilleros0: map<Id, ProyectoSemillero>,
                           proyectos: map<Id, Proyecto>, aulas: map<Id, ProyectoAula>, semilleros: map<Id, ProyectoSemillero>)
  {
    && id !in proyectos0 && id in proyectos
    && var p := proyectos[id];
    && proyectos == proyectos0[id := p]
    && p == NewProyecto(dto, estudiantes, p.proyectoAulaId, p.proyectoSemilleroId)
    && (if dto.proyectoAula.Some? then
          p.proyectoAulaId.Some? && p.proyectoAulaId.value !in aulas0
          && aulas == aulas0[p.proyectoAulaId.value := ProyectoAula(id, dto.proyectoAula.value)]
        else p.proyectoAulaId.None? && aulas == aulas0)
    && (if dto.proyectoSemillero.Some? then
          p.proyectoSemilleroId.Some? && p.proyectoSemilleroId.value !in semilleros0
          && semilleros == semilleros0[p.proyectoSemilleroId.value := ProyectoSemillero(id, dto.proyectoSemillero.value)]
        else p.proyectoSemilleroId.None? && semilleros == semilleros0)
  }

  /** The three shapes `ProyectoStored` allows: no detail record, an Aula record,
      a Semillero record. */
  lemma StoredShapes(dto: CreateProyectoDto, estudiantes: set<Id>, id: Id, d: Id,
                     proyectos0: map<Id, Proyecto>, aulas0: map<Id, ProyectoAula>, semilleros0: map<Id, ProyectoSemillero>)
    requires id !in proyectos0
    ensures dto.proyectoAula.None? && dto.proyectoSemillero.None? ==>
              ProyectoStored(dto, estudiantes, id, proyectos0, aulas0, semilleros0,
                             proyectos0[id := NewProyecto(dto, estudiantes, None, None)], aulas0, semilleros0)
    ensures dto.proyectoAula.Some? && dto.proyectoSemillero.None? && d !in aulas0 ==>
              ProyectoStored(dto, estudiantes, id, proyectos0, aulas0, semilleros0,
                             proyectos0[id := NewProyecto(dto, estudiantes, Some(d), None)],
                             aulas0[d := ProyectoAula(id, dto.proyectoAula.value)], semilleros0)
    ensures dto.proyectoAula.None? && dto.proyectoSemillero.Some? && d !in semilleros0 ==>
              ProyectoStored(dto, estudiantes, id, proyectos0, aulas0, semilleros0,
                             proyectos0[id := NewProyecto(dto, estudiantes, None, Some(d))], aulas0,
                             semilleros0[d := ProyectoSemillero(id, dto.proyectoSemillero.value)])
  {
  }

  /** The writes of `createProyecto` after student resolution: the project row,
      then its Aula or Semillero record, then the link to that record. */
  method StoreProyecto(db: Store, dto: CreateProyectoDto, connected: seq<Id>) returns (id: Id)
    requires db.Valid() && dto.convocatoriaId in db.convocatorias
    requires !(dto.proyectoAula.Some? && dto.proyectoSemillero.Some?)
    modifies db`proyectos, db`aulas, db`semilleros
    ensures db.Valid()
    ensures ProyectoStored(dto, Elems(connected), id, old(db.proyectos), old(db.aulas), old(db.semilleros),
                           db.proyectos, db.aulas, db.semilleros)
  {
    var estudiantes := Elems(connected);
    id := db.InsertProyecto(NewProyecto(dto, estudiantes, None, None));
    StoreDetail(db, dto, estudiantes, id, old(db.proyectos));
  }

  /** The detail step of `createProyecto`, once the project row `id` is stored:
      at most one detail record is given (the guard), so at most one of the two
      inserts runs, followed by the update that links it. */
  method StoreDetail(db: Store, dto: CreateProyectoDto, estudiantes: set<Id>, id: Id, ghost proyectos0: map<Id, Proyecto>)
    requires db.Valid() && dto.convocatoriaId in db.convocatorias
    requires !(dto.proyectoAula.Some? && dto.proyectoSemillero.Some?)
    requires id !in proyectos0 && db.proyectos == proyectos0[id := NewProyecto(dto, estudiantes, None, None)]
    modifies db`proyectos, db`aulas, db`semilleros
    ensures db.Valid()
    ensures ProyectoStored(dto, estudiantes, id, proyectos0, old(db.aulas), old(db.semilleros),
                           db.proyectos, db.aulas, db.semilleros)
  {
    ghost var aulas0, semilleros0 := db.aulas, db.semilleros;
    if dto.proyectoAula.Some? {
      var a := db.InsertAula(ProyectoAula(id, dto.proyectoAula.value));
      db.UpdateProyecto(id, NewProyecto(dto, estudiantes, Some(a), None));
      assert db.proyectos == proyectos0[id := NewProyecto(dto, estudiantes, Some(a), None)];
      StoredShapes(dto, estudiantes, id, a, proyectos0, aulas0, semilleros0);
    } else if dto.proyectoSemillero.Some? {
      var s := db.InsertSemillero(ProyectoSemillero(id, dto.proyectoSemillero.value));
      db.UpdateProyecto(id, NewProyecto(dto, estudiantes, None, Some(s)));
      assert db.proyectos == proyectos0[id := NewProyecto(dto, estudiantes, None, Some(s))];
      StoredShapes(dto, estudiantes, id, s, proyectos0, aulas0, semilleros0);
    } else {
      StoredShapes(dto, estudiantes, id, id, proyectos0, aulas0, semilleros0);
    }
  }

  /** Sends `notices` in order. */
  method SendAll(db: Store, notices: seq<Notification>)
    requires db.Valid()
    modifies db`outbox
    ensures db.Valid()
    ensures db.outbox == old(db.outbox) + notices
  {
    var k := 0;
    while k < |notices|
      invariant 0 <= k <= |notices|
      invariant db.outbox == old(db.outbox) + notices[..k]
      invariant db.Valid()
    {
      db.Send(notices[k]);
      k := k + 1;
    }
    assert notices[..k] == notices;
  }

  /** The notification step of `createProyecto`, after the transaction. */
  method NotifyCreated(db: Store, user: Id, connected: seq<Id>, id: Id, titulo: string)
    requires db.Valid()
    modifies db`outbox
    ensures db.Valid()
    ensures exists a :: AdminAnswer(db.users, a) && db.outbox == old(db.outbox) + CreatedNotices(a, user, connected, id, titulo)
  {
    var admin := db.FindAdmin();
    SendAll(db, CreatedNotices(admin, user, connected, id, titulo));
  }

  /** `createProyecto`. A failed guard writes nothing. Otherwise the students are
      resolved, the project is stored connected to the creator and to them, the
      detail record (at most one) is created and linked, and the notifications
      are sent. */
  method CreateProyecto(db: Store, dto: CreateProyectoDto, user: Id) returns (r: Result<Id>)
    requires db.Valid() && user in db.users
    modifies db`users, db`emailIndex, db`proyectos, db`aulas, db`semilleros, db`outbox
    ensures db.Valid()
    ensures var g := CreateGuard(dto.convocatoriaId in db.convocatorias, dto);
            (g.Some? ==> r == Err(g.value) && unchanged(db)) && (g.None? ==> r.Ok?)
    ensures r.Ok? ==>
      var ests := dto.estudiantes.value;
      var id := r.value;
      && (forall i :: 0 <= i < |ests| ==> ests[i].email in db.emailIndex)
      && var connected := [user] + Resolved(db.emailIndex, ests);
      && ProyectoStored(dto, Elems(connected), id, old(db.proyectos), old(db.aulas), old(db.semilleros),
                        db.proyectos, db.aulas, db.semilleros)
      && ResolvedPrefix(ests, |ests|, Resolved(db.emailIndex, ests), old(db.emailIndex), old(db.users), db.emailIndex, db.users)
      && exists a :: AdminAnswer(db.users, a) && db.outbox == old(db.outbox) + CreatedNotices(a, user, connected, id, dto.titulo)
  {
    var guard := CreateGuard(dto.convocatoriaId in db.convocatorias, dto);
    if guard.Some? {
      return Err(guard.value);
    }
    var ests := dto.estudiantes.value;
    var ids := ResolveEstudiantes(db, ests);
    var connected := [user] + ids;
    var id := StoreProyecto(db, dto, connected);
    NotifyCreated(db, user, connected, id, dto.titulo);
    r := Ok(id);
  }


  // ---------------------------------------------------------------------------
  // asignarEvaluador
  // ---------------------------------------------------------------------------

  /** `asignarEvaluador`: the target must be an existing DOCENTE, then the project
      must exist; on success only the project's `evaluadorId` changes and the
      evaluator is notified. */
  method AsignarEvaluador(db: Store, proyectoId: Id, evaluadorId: Id) returns (r: Result<()>)
    requires db.Valid()
    modifies db`proyectos, db`outbox
    ensures db.Valid()
    ensures !(evaluadorId in db.users && Docente in db.users[evaluadorId].roles) ==>
              r == Err(BadRequest(NotDocente)) && unchanged(db)
    ensures evaluadorId in db.users && Docente in db.users[evaluadorId].roles && proyectoId !in old(db.proyectos) ==>
              r == Err(NotFound(ProyectoMissing)) && unchanged(db)
    ensures r.Ok? <==> evaluadorId in db.users && Docente in db.users[evaluadorId].roles && proyectoId in old(db.proyectos)
    ensures r.Ok? ==>
      var p := old(db.proyectos)[proyectoId];
      && db.proyectos == old(db.proyectos)[proyectoId := p.(evaluadorId := Some(evaluadorId))]
      && db.outbox == old(db.outbox) + [Notification(evaluadorId, "Proyecto asignado: " + p.titulo, AssignedAsEvaluator, proyectoId)]
  {
    if !(evaluadorId in db.users && Docente in db.users[evaluadorId].roles) {
      return Err(BadRequest(NotDocente));
    }
    if proyectoId !in db.proyectos {
      return Err(NotFound(ProyectoMissing));
    }
    var p := db.proyectos[proyectoId];
    db.UpdateProyecto(proyectoId, p.(evaluadorId := Some(evaluadorId)));
    db.Send(Notification(evaluadorId, "Proyecto asignado: " + p.titulo, AssignedAsEvaluator, proyectoId));
    r := Ok(());
  }

  // ---------------------------------------------------------------------------
  // Projections and listings
  // ---------------------------------------------------------------------------

  /** The Aula record a project's relation points to, if any. */
  function AulaOf(t: Tables, p: Proyecto): Option<ProyectoAula> {
    if p.proyectoAulaId.Some? && p.proyectoAulaId.value in t.aulas then Some(t.aulas[p.proyectoAulaId.value]) else None
  }

  function SemilleroOf(t: Tables, p: Proyecto): Option<ProyectoSemillero> {
    if p.proyectoSemilleroId.Some? && p.proyectoSemilleroId.value in t.semilleros then Some(t.semilleros[p.proyectoSemilleroId.value]) else None
  }

  /** The kind the services print for a project: Aula over Semillero. */
  function KindOf(t: Tables, p: Proyecto): Kind {
    ServiceKind(AulaOf(t, p).Some?, SemilleroOf(t, p).Some?)
  }

  predicate Evaluated(t: Tables, id: Id) {
    id in t.evaluacionByProyecto
  }

  /** JavaScript's `s || null` on a string: the empty string is falsy. */
  function NonEmpty(s: string): (r: Option<string>)
    ensures r.None? <==> s == ""
    ensures r.Some? ==> r.value == s
  {
    if s == "" then None else Some(s)
  }

  datatype ConvocatoriaRef = ConvocatoriaRef(id: Id, titulo: string, fechaInicio: Date, fechaFin: Date, rubricaId: Option<Id>)

  datatype Detalles = NoDetalles | AulaDetalles(aula: ProyectoAula) | SemilleroDetalles(semillero: ProyectoSemillero)

  datatype EvaluadorView = EvaluadorView(id: Option<Id>, fullname: Option<string>, email: Option<string>)

  datatype ProyectoView = ProyectoView(
    id: Id,
    titulo: string,
    resumen: string,
    tiempoEjecucion: int,
    fechaInicio: Date,
    fechaFin: Date,
    convocatoria: ConvocatoriaRef,
    estudiantes: set<Id>,
    tipoProyecto: string,
    detallesProyecto: Detalles,
    documentoUrl: Option<string>,
    evaluador: EvaluadorView,
    evaluacion: Option<Id>)

  /** `proyectoAula || proyectoSemillero || null`. */
  function DetallesOf(t: Tables, p: Proyecto): (d: Detalles)
    ensures d.NoDetalles? <==> KindOf(t, p) == Unspecified
    ensures d.AulaDetalles? <==> KindOf(t, p) == Aula
    ensures d.SemilleroDetalles? <==> KindOf(t, p) == Semillero
    ensures d.AulaDetalles? ==> AulaOf(t, p) == Some(d.aula)
    ensures d.SemilleroDetalles? ==> SemilleroOf(t, p) == Some(d.semillero)
  {
    var a := AulaOf(t, p);
    var s := SemilleroOf(t, p);
    if a.Some? then AulaDetalles(a.value) else if s.Some? then SemilleroDetalles(s.value) else NoDetalles
  }

  /** The evaluator block of `getProyectoById`: looked up only for an ADMIN
      requester and a project with an evaluator. */
  function EvaluadorOf(t: Tables, p: Proyecto, requester: Caller): (v: EvaluadorView)
    ensures v.id.Some? || v.fullname.Some? || v.email.Some? ==>
              Admin in requester.roles && p.evaluadorId.Some? && p.evaluadorId.value in t.users
    ensures v.id.Some? ==> v.id == p.evaluadorId
    ensures Admin in requester.roles && p.evaluadorId.Some? && p.evaluadorId.value in t.users ==>
              var u := t.users[p.evaluadorId.value];
              v == EvaluadorView(p.evaluadorId, NonEmpty(u.fullname), NonEmpty(u.email))
  {
    if Admin in requester.roles && p.evaluadorId.Some? && p.evaluadorId.value in t.users then
      var u := t.users[p.evaluadorId.value];
      EvaluadorView(p.evaluadorId, NonEmpty(u.fullname), NonEmpty(u.email))
    else
      EvaluadorView(None, None, None)
  }

  /** `getProyectoById`. */
  function GetProyectoById(t: Tables, id: Id, requester: Caller): (r: Result<ProyectoView>)
    requires Linked(t)
    ensures r.Err? <==> id !in t.proyectos
    ensures r.Err? ==> r.error == NotFound(ProyectoMissing)
    ensures r.Ok? ==>
      var p := t.proyectos[id];
      var v := r.value;
      var c := t.convocatorias[p.convocatoriaId];
      && v.id == id && v.titulo == p.titulo && v.resumen == p.resumen && v.estudiantes == p.estudiantes
      && v.tiempoEjecucion == p.tiempoEjecucion && v.fechaInicio == p.fechaInicio && v.fechaFin == p.fechaFin
      && v.documentoUrl == p.documentoUrl
      && v.convocatoria.id == p.convocatoriaId && v.convocatoria.titulo == c.titulo
      && v.convocatoria.fechaInicio == c.fechaInicio && v.convocatoria.fechaFin == c.fechaFin
      && (v.convocatoria.rubricaId.Some? <==> c.rubricaId.Some? && c.rubricaId.value in t.rubricas)
      && (v.convocatoria.rubricaId.Some? ==> v.convocatoria.rubricaId == c.rubricaId)
      && v.tipoProyecto == GeneralLabel(KindOf(t, p))
      && (v.detallesProyecto.NoDetalles? <==> v.tipoProyecto == "General")
      && v.detallesProyecto == DetallesOf(t, p)
      && v.evaluador == EvaluadorOf(t, p, requester)
      && (v.evaluacion.Some? <==> Evaluated(t, id))
      && (v.evaluacion.Some? ==> v.evaluacion.value == t.evaluacionByProyecto[id]
                                 && t.evaluaciones[v.evaluacion.value].proyectoId == id)
  {
    if id !in t.proyectos then Err(NotFound(ProyectoMissing))
    else
      var p := t.proyectos[id];
      var c := t.convocatorias[p.convocatoriaId];
      var rubrica := if c.rubricaId.Some? && c.rubricaId.value in t.rubricas then c.rubricaId else None;
      Ok(ProyectoView(
        id, p.titulo, p.resumen, p.tiempoEjecucion, p.fechaInicio, p.fechaFin,
        ConvocatoriaRef(p.convocatoriaId, c.titulo, c.fechaInicio, c.fechaFin, rubrica),
        p.estudiantes,
        GeneralLabel(KindOf(t, p)),
        DetallesOf(t, p),
        p.documentoUrl,
        EvaluadorOf(t, p, requester),
        if Evaluated(t, id) then Some(t.evaluacionByProyecto[id]) else None))
  }

  /** One entry of `getAllProyectos`. */
  datatype ProyectoListItem = ProyectoListItem(
    id: Id, titulo: string, resumen: string, convocatoria: string, tipoProyecto: string, evaluador: string)

  function ListItem(t: Tables, id: Id): (item: ProyectoListItem)
    requires id in t.proyectos
    ensures item.id == id
    ensures item.tipoProyecto == GeneralLabel(KindOf(t, t.proyectos[id]))
    ensures item.evaluador == "Asignado" <==> t.proyectos[id].evaluadorId.Some?
    ensures t.proyectos[id].convocatoriaId !in t.convocatorias ==> item.convocatoria == "Sin convocatoria"
  {
    var p := t.proyectos[id];
    ProyectoListItem(
      id, p.titulo, p.resumen,
      if p.convocatoriaId in t.convocatorias then t.convocatorias[p.convocatoriaId].titulo else "Sin convocatoria",
      GeneralLabel(KindOf(t, p)),
      if p.evaluadorId.Some? then "Asignado" else "Sin asignar")
  }

  /** `getAllProyectos`: one entry per project, in the database's order. */
  function GetAllProyectos(t: Tables, order: seq<Id>): (r: seq<ProyectoListItem>)
    requires Lists(order, t.proyectos)
    ensures |r| == |order|
    ensures forall i :: 0 <= i < |r| ==> r[i] == ListItem(t, order[i])
  {
    seq(|order|, i requires 0 <= i < |order| => ListItem(t, order[i]))
  }

  /** One entry of `getProyectosByUser`. */
  datatype MiProyectoItem = MiProyectoItem(
    id: Id, titulo: string, convocatoria: string, tipoProyecto: string, tieneDocumento: bool, haSidoCalificado: bool)

  function MiProyecto(t: Tables, id: Id): (item: MiProyectoItem)
    requires Linked(t) && id in t.proyectos
    ensures item.id == id
    ensures item.tipoProyecto == UpperLabel(KindOf(t, t.proyectos[id]))
    ensures item.tieneDocumento <==> t.proyectos[id].documentoUrl.Some? && t.proyectos[id].documentoUrl.value != ""
    ensures item.haSidoCalificado <==> Evaluated(t, id)
  {
    var p := t.proyectos[id];
    MiProyectoItem(
      id, p.titulo, t.convocatorias[p.convocatoriaId].titulo,
      UpperLabel(KindOf(t, p)),
      p.documentoUrl.Some? && p.documentoUrl.value != "",
      Evaluated(t, id))
  }

  /** `getProyectosByUser`: the projects the user is a student of. */
  function MisProyectosIds(t: Tables, order: seq<Id>, userId: Id): (ids: seq<Id>)
    requires Lists(order, t.proyectos)
    ensures forall id :: id in ids <==> id in t.proyectos && userId in t.proyectos[id].estudiantes
  {
    Filter(order, (id: Id) => id in t.proyectos && userId in t.proyectos[id].estudiantes)
  }

  function GetProyectosByUser(t: Tables, order: seq<Id>, userId: Id): (r: seq<MiProyectoItem>)
    requires Linked(t) && Lists(order, t.proyectos)
    ensures var ids := MisProyectosIds(t, order, userId);
            |r| == |ids| && forall i :: 0 <= i < |ids| ==> r[i] == MiProyecto(t, ids[i])
  {
    var ids := MisProyectosIds(t, order, userId);
    seq(|ids|, i requires 0 <= i < |ids| => MiProyecto(t, ids[i]))
  }

  /** A DOCENTE only sees the projects assigned to them; an ADMIN who is not a
      DOCENTE sees every project. */
  predicate VisibleTo(t: Tables, caller: Caller, id: Id)
    requires id in t.proyectos
  {
    Docente in caller.roles ==> t.proyectos[id].evaluadorId == Some(caller.id)
  }

  predicate MayList(caller: Caller) {
    Docente in caller.roles || Admin in caller.roles
  }

  /** The projects `getProyectosSinCalificar` selects, in the database's order. */
  function SinCalificarIds(t: Tables, order: seq<Id>, caller: Caller): (ids: seq<Id>)
    requires Lists(order, t.proyectos)
    ensures forall id :: id in ids <==> id in t.proyectos && !Evaluated(t, id) && VisibleTo(t, caller, id)
  {
    Filter(order, (id: Id) => id in t.proyectos && !Evaluated(t, id) && VisibleTo(t, caller, id))
  }

  /** The projects `getProyectosCalificados` selects, in the database's order. */
  function CalificadosIds(t: Tables, order: seq<Id>, caller: Caller): (ids: seq<Id>)
    requires Lists(order, t.proyectos)
    ensures forall id :: id in ids <==> id in t.proyectos && Evaluated(t, id) && VisibleTo(t, caller, id)
  {
    Filter(order, (id: Id) => id in t.proyectos && Evaluated(t, id) && VisibleTo(t, caller, id))
  }

  datatype SinCalificarItem = SinCalificarItem(
    id: Id, titulo: string, convocatoriaId: Id, convocatoria: string, tipoProyecto: string, documentoUrl: Option<string>)

  function SinCalificarItemOf(t: Tables, id: Id): SinCalificarItem
    requires Linked(t) && id in t.proyectos
  {
    var p := t.proyectos[id];
    SinCalificarItem(id, p.titulo, p.convocatoriaId, t.convocatorias[p.convocatoriaId].titulo,
                     UpperLabel(KindOf(t, p)), p.documentoUrl)
  }

  /** `getProyectosSinCalificar`. */
  function GetProyectosSinCalificar(t: Tables, order: seq<Id>, caller: Caller): (r: Result<seq<SinCalificarItem>>)
    requires Linked(t) && Lists(order, t.proyectos)
    ensures r.Err? <==> !MayList(caller)
    ensures r.Err? ==> r.error == BadRequest(NoPermission)
    ensures r.Ok? ==>
      var ids := SinCalificarIds(t, order, caller);
      |r.value| == |ids| && forall i :: 0 <= i < |ids| ==> r.value[i] == SinCalificarItemOf(t, ids[i])
  {
    if !MayList(caller) then Err(BadRequest(NoPermission))
    else
      var ids := SinCalificarIds(t, order, caller);
      Ok(seq(|ids|, i requires 0 <= i < |ids| => SinCalificarItemOf(t, ids[i])))
  }

  datatype UserRef = UserRef(id: Id, fullname: string, email: string)

  datatype CalificadoItem = CalificadoItem(
    id: Id, titulo: string, convocatoria: string, puntajeFinal: int, evaluador: UserRef)

  /** The evaluation of an evaluated project. */
  function EvaluacionOf(t: Tables, id: Id): (e: Evaluacion)
    requires Linked(t) && Evaluated(t, id)
    ensures e.proyectoId == id && e.evaluadorId in t.users
  {
    t.evaluaciones[t.evaluacionByProyecto[id]]
  }

  function CalificadoItemOf(t: Tables, id: Id): CalificadoItem
    requires Linked(t) && id in t.proyectos && Evaluated(t, id)
  {
    var p := t.proyectos[id];
    var e := EvaluacionOf(t, id);
    var u := t.users[e.evaluadorId];
    CalificadoItem(id, p.titulo, t.convocatorias[p.convocatoriaId].titulo, e.puntajeTotal,
                   UserRef(e.evaluadorId, u.fullname, u.email))
  }

  /** `getProyectosCalificados`. */
  function GetProyectosCalificados(t: Tables, order: seq<Id>, caller: Caller): (r: Result<seq<CalificadoItem>>)
    requires Linked(t) && Lists(order, t.proyectos)
    ensures r.Err? <==> !MayList(caller)
    ensures r.Err? ==> r.error == BadRequest(NoPermission)
    ensures r.Ok? ==>
      var ids := CalificadosIds(t, order, caller);
      |r.value| == |ids| && forall i :: 0 <= i < |ids| ==> r.value[i] == CalificadoItemOf(t, ids[i])
  {
    if !MayList(caller) then Err(BadRequest(NoPermission))
    else
      var ids := CalificadosIds(t, order, caller);
      Ok(seq(|ids|, i requires 0 <= i < |ids| => CalificadoItemOf(t, ids[i])))
  }

  /** The two listings select exactly the visible projects without, respectively
      with, an evaluation; together they hold every visible project once. */
  lemma ListingsPartition(t: Tables, order: seq<Id>, caller: Caller, id: Id)
    requires Lists(order, t.proyectos)
    ensures id in SinCalificarIds(t, order, caller) <==>
              id in t.proyectos && !Evaluated(t, id) && VisibleTo(t, caller, id)
    ensures id in CalificadosIds(t, order, caller) <==>
              id in t.proyectos && Evaluated(t, id) && VisibleTo(t, caller, id)
    ensures !(id in SinCalificarIds(t, order, caller) && id in CalificadosIds(t, order, caller))
    ensures id in t.proyectos && VisibleTo(t, caller, id) ==>
              id in SinCalificarIds(t, order, caller) || id in CalificadosIds(t, order, caller)
  {
  }

  /** An ADMIN who is not a DOCENTE is shown every project in one of the two
      listings; a DOCENTE only ever sees projects assigned to them. */
  lemma AdminSeesAll(t: Tables, order: seq<Id>, caller: Caller, id: Id)
    requires Lists(order, t.proyectos)
    ensures Admin in caller.roles && Docente !in caller.roles && id in t.proyectos ==>
              id in SinCalificarIds(t, order, caller) || id in CalificadosIds(t, order, caller)
    ensures Docente in caller.roles && (id in SinCalificarIds(t, order, caller) || id in CalificadosIds(t, order, caller)) ==>
              t.proyectos[id].evaluadorId == Some(caller.id)
  {
    ListingsPartition(t, order, caller, id);
  }
}
