/** Shared vocabulary of the backend: identifiers, roles, optional values and the
    HTTP exceptions the services throw, turned into values. */
module Common {

  /** Database identifiers. The source uses UUID strings generated by the database;
      the model uses natural numbers, a new one being any number not yet in use. */
  type Id = nat

  /** Timestamps and dates are opaque to every operation modelled here. */
  type Date = int

  datatype Option<+T> = None | Some(value: T)

  /** The user roles stored in `User.roles`. */
  datatype Role = Admin | Docente | Estudiante

  /** The authenticated user a request comes from. */
  datatype Caller = Caller(id: Id, roles: set<Role>)

  /** Which guard rejected a request; one constant per `throw` site of the services. */
  datatype Code =
    | MimeNotAllowed        // uploadFile: not PDF/DOC/DOCX
    | FileTooLarge          // uploadFile: over 2 MiB
    | ConvocatoriaMissing   // createProyecto: unknown convocatoria
    | AulaAndSemillero      // createProyecto: both kinds given
    | NoEstudiantes         // createProyecto: no students
    | ProyectoMissing       // proyecto lookups
    | NotDocente            // asignarEvaluador / crearEvaluacion
    | NoPermission          // role or membership checks
    | AlreadyEvaluated      // crearEvaluacion: one evaluation per project
    | NoRubrica             // crearEvaluacion: convocatoria without rubric
    | RubricaExists         // createRubrica: duplicate name
    | ConvocatoriaNotFound  // createRubrica / findById: unknown convocatoria

  /** The NestJS exception classes the services throw. */
  datatype Error =
    | BadRequest(code: Code)
    | NotFound(code: Code)
    | Forbidden(code: Code)
    | Conflict(code: Code)

  datatype Result<+T> = Ok(value: T) | Err(error: Error)

  /** `list.filter(p)`: the elements satisfying `p`, in their original order. */
  function Filter<T(!new)>(s: seq<T>, p: T -> bool): (r: seq<T>)
    ensures |r| <= |s|
    ensures forall x :: x in r <==> x in s && p(x)
    ensures forall i :: 0 <= i < |r| ==> p(r[i])
  {
    if s == [] then [] else (if p(s[0]) then [s[0]] else []) + Filter(s[1..], p)
  }

  /** Filtering keeps relative order: it distributes over concatenation. */
  lemma {:induction false} FilterAppend<T(!new)>(s: seq<T>, t: seq<T>, p: T -> bool)
    ensures Filter(s + t, p) == Filter(s, p) + Filter(t, p)
  {
    if s == [] {
      assert s + t == t;
    } else {
      assert (s + t)[1..] == s[1..] + t;
      FilterAppend(s[1..], t, p);
    }
  }

  /** Filtering a list without repetitions gives a list without repetitions. */
  lemma {:induction false} FilterDistinct<T(!new)>(s: seq<T>, p: T -> bool)
    requires forall i, j :: 0 <= i < j < |s| ==> s[i] != s[j]
    ensures forall i, j :: 0 <= i < j < |Filter(s, p)| ==> Filter(s, p)[i] != Filter(s, p)[j]
  {
    if s != [] {
      FilterDistinct(s[1..], p);
      var rest := Filter(s[1..], p);
      var r := Filter(s, p);
      assert s[0] !in s[1..];
      assert s[0] !in rest;
      if p(s[0]) {
        assert r == [s[0]] + rest;
        forall i, j | 0 <= i < j < |r|
          ensures r[i] != r[j]
        {
          assert r[j] == rest[j - 1] && rest[j - 1] in rest;
          if i > 0 {
            assert r[i] == rest[i - 1];
          }
        }
      } else {
        assert r == rest;
      }
    }
  }

  /** Concatenation is associative. */
  lemma ConcatAssoc<T>(a: seq<T>, b: seq<T>, c: seq<T>)
    ensures (a + b) + c == a + (b + c)
  {
  }

  /** A second update of the same key overrides the first. */
  lemma Overwrite<K, V>(m: map<K, V>, k: K, a: V, b: V)
    ensures m[k := a][k := b] == m[k := b]
  {
  }

  /** The members of a list, as the set a many-to-many `connect` of that list
      produces. */
  function Elems<T(!new)>(s: seq<T>): (r: set<T>)
    ensures forall x :: x in r <==> x in s
  {
    set x | x in s
  }
}
