# convocatoria-backend in Dafny

A model of the core of the *convocatoria* backend, a NestJS/Prisma service in which
teachers open calls for projects (convocatorias), students submit projects (Aula
or Semillero projects), teachers evaluate them against rubrics, and an admin
reads reports. The model covers:

- **The projects table of the PDF report** (`ProjectsTable`, `report_table.dfy`).
  This is the layout loop embedded in the report-patching script:
  - the row height is estimated from the text lengths;
  - a page break happens when a row would cross y = 700;
  - the header is redrawn and the alternating shade is reset after a break;
  - the score is coloured, and the type label is chosen.

  The loop is a class (`TableWriter`) whose fields are the loop variables
  (`tableStartY`, `tableY`, `colorAlternado`) and whose drawing calls are recorded
  as events. It is proved against a functional specification (`Run`, `RunEvents`,
  `SectionEvents`), and the lemmas about that specification give:
  - one row per project, in order;
  - rows placed without a break end above y = 700;
  - the cursor equals the segment's top plus the header plus the segment's row
    heights;
  - shading alternates inside each page segment.
- **The splice of the report script** (`ReportSplice`). `findInsertPosition` and the
  `substring` splice follow the clamping rules of JavaScript's `indexOf` and
  `substring`.
- **String normalisers**:
  - `capitalizeSentence` (`StringUtils`, over the case mapping of `Chars`);
  - the file-name sanitiser and the guards, key and URL of `uploadFile` (`Upload`).
- **The business rules over an in-memory database** (`Store`). The `Store` class has:
  - one `map` field per table;
  - the unique indexes of the schema (user e-mail, rubric name, criterion name,
    evaluation per project);
  - the notification outbox.

  The services' state-changing operations are methods on that class:
  - `createProyecto` and `asignarEvaluador` (`Proyectos`);
  - `crearEvaluacion` (`Evaluaciones`);
  - `createRubrica` with its find-or-create loop over criteria (`Rubricas`);
  - `create` of convocatorias (`Convocatorias`).
- **The read queries** are pure functions over a snapshot of the tables (`Tables`)
  and the order in which the database lists rows:
  - the project listings, `getProyectoById` and `getEvaluacionByProyectoId`;
  - `getFilteredRubricas`;
  - the report statistics (`Reportes`);
  - available convocatorias and `findById` (`Convocatorias`);
  - the global search (`Search`).
  The `getProyectosPorConvocatoria` loop is a method proved equal to a filter.

The project-kind labels are shared between the modules (`Kind`):
- the services give an Aula detail precedence over a Semillero detail;
- the report gives the Semillero detail precedence.

`Kind.KindRulesAgree` shows the two rules disagree exactly on a project with
both details, which `createProyecto` refuses.

How the source behaves at some edges (all modelled as written):
- `findInsertPosition`, when both markers exist but no newline follows
  `doc.moveDown(2);`, returns `-1 + 1 = 0`, so the section goes at the very start of
  the file (`ReportSplice.InsertPositionCases`).
- After NFD and mark removal no `ñ`/`Ñ` is left, so the dedicated `ñ` replacement
  of `formatFileName` never changes anything (`Upload.EnyeStepInert`).
- `getProyectosCalificados` builds a `whereCondition` that is never used. The query
  filters on the project's `evaluadorId`, not on the evaluation's evaluator, and the
  model follows the query (`Proyectos.CalificadosIds`).

## Model

| member | source | states |
|---|---|---|
| Chars.ToLower | src/utils/string-utils.ts:11 | an upper-case letter maps to its lower-case partner (code point plus 32); every other character is unchanged |
| Chars.ToUpper | src/utils/string-utils.ts:12 | a lower-case letter maps to its upper-case partner (code point minus 32); every other character is unchanged |
| Chars.CaseRoundTrip | src/utils/string-utils.ts:10-12 | case mapping never moves a character in or out of the letter or whitespace classes; the two mappings are idempotent and absorb each other |
| Chars.Lower | src/utils/string-utils.ts:11 | `toLowerCase` maps every character and keeps the length |
| Chars.Upper | src/rubricas/rubricas.service.ts:13 | `toUpperCase` maps every character and keeps the length |
| Chars.UpperIgnoresCase | src/rubricas/rubricas.service.ts:13-22 | names equal up to case have the same upper-cased form; upper-casing is idempotent |
| Kind.ServiceKind | src/proyectos/proyectos.service.ts:252-256 | the kind is Aula iff there is an Aula detail, Semillero iff a Semillero detail and no Aula detail |
| Kind.ReportKind | src/reportes/fix-report.js:102-104 | the kind is Semillero iff there is a Semillero detail, Aula iff an Aula detail and no Semillero detail |
| Kind.KindRulesAgree | src/reportes/fix-report.js:102-104 | the report's rule and the services' rule give the same kind iff the project does not have both details |
| Kind.LabelsInjective | src/proyectos/proyectos.service.ts:290-294 | each of the three label vocabularies ("Aula/Semillero/General", "AULA/SEMILLERO/SIN DEFINIR", "Aula/Semillero/No especificado") tells the kinds apart |
| StringUtils.ReplaceWordStarts | src/utils/string-utils.ts:12 | the global replace keeps the length of the text |
| StringUtils.CapitalizeSentence | src/utils/string-utils.ts:1-13 | the empty (falsy) text gives ""; the length is preserved |
| StringUtils.ReplaceWordStartsAt | src/utils/string-utils.ts:12 | the replace upper-cases exactly the letters at the start of the text or right after whitespace and leaves every other character as it is |
| StringUtils.CapitalizeAt | src/utils/string-utils.ts:10-12 | each result character is the upper case of a letter at a word start, else the lower case of the input character |
| StringUtils.CapitalizeClasses | src/utils/string-utils.ts:10-12 | a letter at index 0 or after whitespace is upper case in the result; every other letter (e.g. after "1" or "-") is lower case; non-letters are unchanged |
| StringUtils.CapitalizeIdempotent | src/utils/string-utils.ts:10-12 | applying `capitalizeSentence` twice gives the same result as once |
| StringUtils.CapitalizeExample | src/utils/string-utils.ts:12 | "hI-x 1a" becomes "Hi-x 1a": the letters after "-" and "1" are not word starts |
| Upload.UpperParts | src/upload/s3.service.ts:27 | a decomposable upper-case Latin-1 letter splits into an ASCII base letter and a combining mark in U+0300..U+036F |
| Upload.Decompose | src/upload/s3.service.ts:27 | NFD of one character is the character itself or an ASCII letter followed by a combining mark |
| Upload.Nfd | src/upload/s3.service.ts:27 | NFD never shortens the text |
| Common.Filter | src/upload/s3.service.ts:31 | a global replace-by-"" keeps exactly the characters that satisfy the class, in order, and never lengthens the text |
| Upload.ReplaceEnye | src/upload/s3.service.ts:29 | the ñ/Ñ replacement keeps the length |
| Upload.SkipSpaces | src/upload/s3.service.ts:30 | the rest of the text after its leading whitespace run, which starts with a non-space |
| Upload.FormatFileName | src/upload/s3.service.ts:25-32 | every character of the result is in [A-Za-z0-9_.-] |
| Upload.FormatFileNameNoSpace | src/upload/s3.service.ts:30-31 | the sanitised name contains no whitespace |
| Upload.CollapseRun | src/upload/s3.service.ts:30 | a maximal whitespace run becomes one "_" |
| Upload.SkipAll | src/upload/s3.service.ts:30 | skipping a whitespace run stops at the first non-space |
| Upload.CollapseNoSpace | src/upload/s3.service.ts:30 | after `replace(/\s+/g, "_")` no whitespace is left |
| Upload.CollapseIdentity | src/upload/s3.service.ts:30 | text without whitespace passes the collapse unchanged |
| Upload.KeepIdentity | src/upload/s3.service.ts:31 | text made only of allowed characters passes the filter unchanged |
| Upload.NfdAscii | src/upload/s3.service.ts:27 | NFD is the identity on ASCII text |
| Upload.EnyeIdentity | src/upload/s3.service.ts:29 | text without ñ/Ñ passes the replacement unchanged |
| Upload.NfdNoEnye | src/upload/s3.service.ts:27-29 | NFD output contains no precomposed ñ/Ñ |
| Upload.KeepNoEnye | src/upload/s3.service.ts:28-29 | dropping characters cannot introduce ñ/Ñ |
| Upload.EnyeStepInert | src/upload/s3.service.ts:27-29 | after NFD and mark removal the ñ/Ñ replacement changes nothing |
| Upload.FormatAscii | src/upload/s3.service.ts:26-31 | for ASCII names the sanitiser only collapses whitespace runs to "_" and drops disallowed characters, keeping the others in order |
| Upload.FormatIdempotent | src/upload/s3.service.ts:25-32 | sanitising a sanitised name changes nothing |
| Upload.ObjectKey | src/upload/s3.service.ts:52-53 | the key is the UUID, "-", then each character of the sanitised name lower-cased, in order: only allowed, non-upper-case characters after the dash |
| Upload.UploadFile | src/upload/s3.service.ts:34-63 | a MIME type other than PDF/DOC/DOCX is refused first; then a size over 2 MiB; it succeeds iff both pass, with URL endpoint/bucket/key |
| Upload.SizeBoundary | src/upload/s3.service.ts:35-50 | a PDF of exactly 2 097 152 bytes is accepted; one byte more is refused with the size error |
| ProjectsTable.Lines | src/reportes/fix-report.js:123-124 | `Math.ceil(len / 25)`: the least line count whose 25-character lines hold the text |
| ProjectsTable.RowHeight | src/reportes/fix-report.js:122-126 | the row height is at least 40; it is exactly 40 iff both texts fit in two lines; otherwise it is 14 · lines of the longer text + 10 |
| ProjectsTable.LinesMonotone | src/reportes/fix-report.js:123-124 | a longer text never needs fewer lines |
| ProjectsTable.RowHeightMonotone | src/reportes/fix-report.js:122-126 | longer texts never give a shorter row |
| ProjectsTable.Height | src/reportes/fix-report.js:122-126 | a project's row is never lower than the minimum row height |
| ProjectsTable.ScoreColourOf | src/reportes/fix-report.js:200-212 | gray iff no evaluation; green iff score ≥ 70; orange iff 50 ≤ score < 70; red iff score < 50 |
| ProjectsTable.ScoreColourMonotone | src/reportes/fix-report.js:200-212 | a higher score never gets a worse colour |
| ProjectsTable.TipoLabel | src/reportes/fix-report.js:101-104 | "Semillero" when there is a Semillero detail, else "Aula" with an Aula detail, else "No especificado" |
| ProjectsTable.TableWriter.constructor | src/reportes/fix-report.js:87-89 | the first header is drawn at the top; the cursor is 30 below it; shading starts off |
| ProjectsTable.TableWriter.AddRow | src/reportes/fix-report.js:93-242 | one iteration: the new cursor and the drawing calls are those of the step specification (close border, new page and header on a break; then the row and its rule) |
| ProjectsTable.TableWriter.AddRows | src/reportes/fix-report.js:93-242 | the loop over all projects ends at the cursor of the run specification, having drawn its events |
| ProjectsTable.TableWriter.Close | src/reportes/fix-report.js:244-251 | the column lines and the outer border of the last segment, from its top to the cursor |
| ProjectsTable.RenderProjects | src/reportes/fix-report.js:17-256 | the section's drawing calls: the no-projects message for an empty list, otherwise header, rows and closing lines exactly as specified |
| ProjectsTable.StepRows | src/reportes/fix-report.js:128-241 | each iteration draws exactly one row, at the cursor after the optional break |
| ProjectsTable.RunRows | src/reportes/fix-report.js:93-242 | the loop draws one row per project, in input order, each where the cursor stood for it |
| ProjectsTable.SectionRows | src/reportes/fix-report.js:17-256 | the whole section has exactly one row per project, in order |
| ProjectsTable.RunEventsAt | src/reportes/fix-report.js:93-242 | each iteration's drawing calls appear together, between those of the projects before and after it |
| ProjectsTable.RowPlacement | src/reportes/fix-report.js:129-238 | a break happens iff tableY + height > 700; a row after a break sits under the new header and is unshaded; any other row starts where the previous ended, ends at y ≤ 700 and keeps the flag; the cursor advances by exactly the row's height |
| ProjectsTable.BreakClosesSegment | src/reportes/fix-report.js:129-147 | on a break the border closes the open segment from its top to the bottom of its last row (or of its header), and is followed by a new page and a header |
| ProjectsTable.ShadingFirst | src/reportes/fix-report.js:89 | the first row is unshaded |
| ProjectsTable.ShadingStep | src/reportes/fix-report.js:146-154 | a row after a break is unshaded; any other row has the opposite shading of the previous row |
| ProjectsTable.ShadingAlternates | src/reportes/fix-report.js:89-154 | within each page segment the row at position k is shaded iff k is odd |
| ProjectsTable.CursorAfterBreak | src/reportes/fix-report.js:143-147 | a row that breaks the page opens a segment at the continuation top that holds just that row |
| ProjectsTable.CursorAfterFit | src/reportes/fix-report.js:238 | a row that fits stays in the open segment and moves the cursor down by its height |
| ProjectsTable.SegmentCursor | src/reportes/fix-report.js:88-238 | after k rows the segment starts at the first top, or at the continuation top once a break happened, and the cursor equals that top + 30 + the heights of the segment's rows |
| ReportSplice.FindInsertPosition | src/reportes/fix-report.js:260-274 | the position is -1 (nowhere) exactly when the text has no footer marker, and otherwise lies within the text |
| ReportSplice.PatchedContent | src/reportes/fix-report.js:280-290 | the written text is the original plus the section and separator at the clamped insert position: cutting that block out gives the original back |
| ReportSplice.IndexOf | src/reportes/fix-report.js:262-273 | `indexOf` returns the first occurrence at or after the clamped start, or -1 when there is none |
| ReportSplice.Substring | src/reportes/fix-report.js:280-283 | `substring` clamps both ends to the text and swaps them when out of order |
| ReportSplice.Splice | src/reportes/fix-report.js:280-283 | the patched text is the prefix up to the clamped position, the section, the separator, then the rest |
| ReportSplice.SpliceRemovable | src/reportes/fix-report.js:280-283 | cutting the inserted block out of the patched text gives the original back |
| ReportSplice.InsertPositionCases | src/reportes/fix-report.js:260-274 | with both markers: 0 exactly when no newline follows the first `doc.moveDown(2);` at or after the title (searched from 0 without a title), otherwise the start of the line after it; without them, the footer's index or -1 |
| ReportSplice.NextLineStart | src/reportes/fix-report.js:269 | one past the first newline at or after a position is the start of the next line; it is 0 exactly when no newline follows |
| ReportSplice.FallbackBeforeFooter | src/reportes/fix-report.js:273-283 | in the fallback with a footer, the section lands right before the footer comment and the text before it is untouched |
| ReportSplice.SpliceKeepsOccurrence | src/reportes/fix-report.js:280-283 | text at the splice position is found again right after the inserted block |
| Store.Store.UserByEmail | src/proyectos/proyectos.service.ts:46-48 | the user with the e-mail, iff one exists |
| Store.Store.FindAdmin | src/proyectos/proyectos.service.ts:132-134 | some user with the ADMIN role, or none when there is no admin |
| Store.Store.InsertUser | src/proyectos/proyectos.service.ts:51-58 | a new user under a fresh id, indexed by its e-mail |
| Store.Store.InsertConvocatoria | src/convocatorias/convocatorias.service.ts:24-26 | a new convocatoria under a fresh id; nothing else changes |
| Store.Store.UpdateConvocatoria | src/rubricas/rubricas.service.ts:41 | the one convocatoria row is replaced |
| Store.Store.InsertProyecto | src/proyectos/proyectos.service.ts:68-81 | a new project under a fresh id |
| Store.Store.UpdateProyecto | src/proyectos/proyectos.service.ts:118-123 | the one project row is replaced |
| Store.Store.InsertAula | src/proyectos/proyectos.service.ts:87-97 | a new Aula record under a fresh id |
| Store.Store.InsertSemillero | src/proyectos/proyectos.service.ts:104-112 | a new Semillero record under a fresh id |
| Store.Store.InsertEvaluacion | src/evaluaciones/evaluaciones.service.ts:44-52 | a new evaluation, indexed by its project (requires the project to have none) |
| Store.Store.InsertEvalCriterios | src/evaluaciones/evaluaciones.service.ts:55-62 | the rows are appended to the criterion scores |
| Store.Store.InsertRubrica | src/rubricas/rubricas.service.ts:37-43 | a new rubric under a fresh id, indexed by its name |
| Store.Store.ConnectCriterios | src/rubricas/rubricas.service.ts:73-78 | the rubric's criteria grow by the given ids |
| Store.Store.InsertCriterio | src/rubricas/rubricas.service.ts:57-64 | a new criterion under a fresh id, indexed by its name |
| Store.Store.Send | src/proyectos/proyectos.service.ts:164-169 | the notification is appended to the outbox |
| Proyectos.Resolved | src/proyectos/proyectos.service.ts:44-62 | one user per DTO student |
| Proyectos.ResolveEstudiante | src/proyectos/proyectos.service.ts:45-61 | an existing user with the e-mail is reused and nothing is written; otherwise a new user with roles {ESTUDIANTE} is created |
| Proyectos.ResolveEstudiantes | src/proyectos/proyectos.service.ts:44-62 | every DTO student resolves to the user its e-mail is indexed at, in order; earlier users are untouched; each new e-mail got one new student named after its first occurrence, and no other user was added |
| Proyectos.CreateGuard | src/proyectos/proyectos.service.ts:29-39 | the checks, in order: missing convocatoria, both Aula and Semillero, no or empty students; it passes iff none applies |
| Proyectos.Without | src/proyectos/proyectos.service.ts:152 | the list without the creator's id |
| Proyectos.CreatedNoticesRecipients | src/proyectos/proyectos.service.ts:136-166 | the admin notice exists iff an admin does and is first; the creator's notice follows; exactly the other connected students are told they were added; all point at the project |
| Proyectos.StoredShapes | src/proyectos/proyectos.service.ts:83-123 | no detail record and no update; or one Aula or one Semillero record pointing back at the project, linked from it |
| Proyectos.StoreProyecto | src/proyectos/proyectos.service.ts:67-123 | the project is stored with the given students, with at most one detail record, created and linked |
| Proyectos.StoreDetail | src/proyectos/proyectos.service.ts:83-123 | the Aula or Semillero record (at most one) is inserted and linked from the project row |
| Proyectos.SendAll | src/proyectos/proyectos.service.ts:164-169 | the notices are appended in order |
| Proyectos.NotifyCreated | src/proyectos/proyectos.service.ts:131-172 | the outbox grows by the creation notices for whichever admin the lookup found |
| Proyectos.CreateProyecto | src/proyectos/proyectos.service.ts:19-175 | a failed guard gives its error and writes nothing; otherwise students are resolved, the project is stored connected to the creator and them, its detail record is linked and the notices are sent |
| Proyectos.AsignarEvaluador | src/proyectos/proyectos.service.ts:338-375 | not a DOCENTE gives BadRequest; then an unknown project gives NotFound (no writes); on success only the project's evaluadorId changes and the evaluator is notified |
| Proyectos.NonEmpty | src/proyectos/proyectos.service.ts:260-262 | `s \|\| null`: the empty string becomes null |
| Proyectos.DetallesOf | src/proyectos/proyectos.service.ts:257 | the details are the Aula record, else the Semillero record, else none, matching the kind, and carry that record |
| Proyectos.EvaluadorOf | src/proyectos/proyectos.service.ts:224-263 | the evaluator fields are non-null only for an ADMIN requester and a project with an evaluator, and then are the evaluator's |
| Proyectos.GetProyectoById | src/proyectos/proyectos.service.ts:177-266 | NotFound iff the project is unknown; otherwise its fields, its convocatoria's id, title and dates, the rubric id iff that rubric exists, the kind label "Aula"/"Semillero"/"General", the details record of that kind, the evaluator block of `EvaluadorOf`, and the id of its evaluation iff there is one |
| Proyectos.ListItem | src/proyectos/proyectos.service.ts:283-296 | the General-vocabulary kind label, "Asignado" iff an evaluator is set, "Sin convocatoria" without one |
| Proyectos.GetAllProyectos | src/proyectos/proyectos.service.ts:268-297 | one entry per project, in the database's order |
| Proyectos.MiProyecto | src/proyectos/proyectos.service.ts:328-335 | the upper-case kind label; the document flag iff a non-empty URL; the graded flag iff evaluated |
| Proyectos.MisProyectosIds | src/proyectos/proyectos.service.ts:300-305 | exactly the projects the user is a student of |
| Proyectos.GetProyectosByUser | src/proyectos/proyectos.service.ts:299-336 | one entry per project of the user, in order |
| Proyectos.SinCalificarIds | src/proyectos/proyectos.service.ts:386-390 | exactly the unevaluated projects visible to the caller (a DOCENTE: those with their evaluadorId) |
| Proyectos.CalificadosIds | src/proyectos/proyectos.service.ts:442-448 | exactly the evaluated projects visible to the caller |
| Proyectos.GetProyectosSinCalificar | src/proyectos/proyectos.service.ts:377-418 | BadRequest iff the caller is neither DOCENTE nor ADMIN; otherwise one entry per selected project |
| Proyectos.EvaluacionOf | src/proyectos/proyectos.service.ts:455-461 | the evaluation of an evaluated project is of that project, by an existing user |
| Proyectos.GetProyectosCalificados | src/proyectos/proyectos.service.ts:420-473 | BadRequest iff the caller is neither DOCENTE nor ADMIN; otherwise one entry per selected project |
| Proyectos.ListingsPartition | src/proyectos/proyectos.service.ts:377-447 | the two listings are disjoint and together hold every visible project |
| Proyectos.AdminSeesAll | src/proyectos/proyectos.service.ts:384-447 | an ADMIN who is not a DOCENTE sees every project in one listing; a DOCENTE sees only projects assigned to them |
| Evaluaciones.CriterioRows | src/evaluaciones/evaluaciones.service.ts:55-62 | one row per DTO criterion, in order, linked to the evaluation, carrying its criterion, score and comment (null when absent) |
| Evaluaciones.EvaluatedNotices | src/evaluaciones/evaluaciones.service.ts:65-74 | one "evaluated" notice per listed student |
| Evaluaciones.NotifyStudents | src/evaluaciones/evaluaciones.service.ts:65-74 | every student of the project is notified exactly once, in some order |
| Evaluaciones.NotifyEvaluated | src/evaluaciones/evaluaciones.service.ts:64-89 | the students' notices, then one to the admin if there is one |
| Evaluaciones.RecordEvaluacion | src/evaluaciones/evaluaciones.service.ts:43-89 | the evaluation (rubric, evaluator, score, remarks) under a fresh id and indexed by project, its criterion rows, then the notices |
| Evaluaciones.CrearEvaluacion | src/evaluaciones/evaluaciones.service.ts:14-92 | Forbidden without DOCENTE before any lookup; then NotFound, BadRequest if already evaluated, BadRequest without a rubric, each writing nothing; success iff all pass, with the rubric of the convocatoria and the caller as evaluator |
| Evaluaciones.GetEvaluacionByProyectoId | src/evaluaciones/evaluaciones.service.ts:94-122 | NotFound iff the project is unknown; Forbidden iff the caller is not ADMIN, its evaluator or one of its students; otherwise null iff unevaluated, else the stored evaluation indexed for the project with exactly its stored criterion rows |
| Evaluaciones.OneEvaluacionPerProyecto | src/evaluaciones/evaluaciones.service.ts:29-36 | two evaluations of the same project are the same evaluation |
| Rubricas.Keys | src/rubricas/rubricas.service.ts:48 | each criterion is looked up by its upper-cased name |
| Rubricas.NamedIds | src/rubricas/rubricas.service.ts:46-70 | one criterion id per key, in order |
| Rubricas.FindOrCreateCriterio | src/rubricas/rubricas.service.ts:47-69 | an existing criterion with the upper-cased name is reused unchanged; otherwise one is created with the DTO's min, max and description |
| Rubricas.FindOrCreateCriterios | src/rubricas/rubricas.service.ts:46-70 | one id per DTO criterion, in order, the one its name is indexed at; each new name got one criterion from its first occurrence; nothing else was added or changed |
| Rubricas.RubricaGuard | src/rubricas/rubricas.service.ts:13-34 | Conflict when the upper-cased name exists; then NotFound for a given unknown convocatoria; passes iff neither |
| Rubricas.StoreRubrica | src/rubricas/rubricas.service.ts:36-43 | the rubric is stored under the upper-cased name without criteria, linked to the convocatoria when one was given |
| Rubricas.ConnectDtoCriterios | src/rubricas/rubricas.service.ts:45-78 | the criteria are found or created and then all connected to the rubric |
| Rubricas.CreateRubrica | src/rubricas/rubricas.service.ts:10-85 | a guard failure writes nothing; otherwise the rubric is stored under the upper-cased name with exactly the DTO's criteria and linked to the convocatoria if given |
| Rubricas.DuplicateNameScenario | src/rubricas/rubricas.service.ts:13-22 | after a successful creation, a name differing only in case is refused with Conflict |
| Rubricas.SelectedRubricas | src/rubricas/rubricas.service.ts:88-96 | all rubrics without a search text; otherwise exactly those whose name contains it, ignoring case |
| Rubricas.CriteriosOf | src/rubricas/rubricas.service.ts:101-109 | exactly the rubric's criteria |
| Rubricas.GetFilteredRubricas | src/rubricas/rubricas.service.ts:87-121 | one view per selected rubric, in the database's order |
| Rubricas.ListingOnlyRenames | src/rubricas/rubricas.service.ts:113-120 | only rubric and criterion names change, to their `capitalizeSentence` form; ids, descriptions, scores and the rubric's criteria are kept |
| Reportes.CountRows | src/reportes/reportes.service.ts:9-14 | one row per convocatoria with its title and its project count |
| Reportes.GetProyectosPorConvocatoria | src/reportes/reportes.service.ts:16-27 | the loop's result is what pushing row by row specifies |
| Reportes.WithProjects | src/reportes/reportes.service.ts:16-27 | the reference: as many entries as rows with projects |
| Reportes.PushedIsFilter | src/reportes/reportes.service.ts:18-25 | the loop's result is the rows with projects, in input order, as {name, value} |
| Reportes.ChartProperties | src/reportes/reportes.service.ts:16-27 | all values positive; no more entries than convocatorias; every convocatoria row with projects has its entry and every entry comes from such a row |
| Reportes.ChartKeepsTotal | src/reportes/reportes.service.ts:16-27 | dropping the convocatorias without projects keeps the sum of the counts: the bars add up to the rows' total |
| Reportes.ChartMatchesTotals | src/reportes/reportes.service.ts:8-52 | the chart query has one row per convocatoria, as many as the dashboard counts, and its bars add up to the dashboard's project total |
| Reportes.ObtenerEstadoEvaluaciones | src/reportes/reportes.service.ts:30-40 | graded plus pending equals the number of projects |
| Reportes.PendingCount | src/reportes/reportes.service.ts:31-38 | the pending count is the number of projects without an evaluation, never negative |
| Reportes.ObtenerEstadisticasCantidad | src/reportes/reportes.service.ts:42-52 | usuarios, convocatorias and proyectos are the sizes of the three tables (tied to the other dashboard queries by `EvaluatedCount` and `ChartMatchesTotals`) |
| Reportes.GetProyectosPorTipo | src/reportes/reportes.service.ts:54-62 | the numbers of Aula and Semillero records (tied to the projects and their labels by `KindCounts`) |
| Reportes.EvaluatedCount | src/reportes/reportes.service.ts:30-52 | the evaluated count equals the number of evaluations (one per project, each of an existing project); the pending count is the dashboard's project total minus it |
| Reportes.KindCounts | src/reportes/reportes.service.ts:54-62 | with one-to-one detail relations, the Aula and Semillero counts are the numbers of projects with such a record; with no project having both, they are the projects the services label Aula and Semillero, and sum to at most the project total |
| Convocatorias.Create | src/convocatorias/convocatorias.service.ts:12-27 | the request is stored as given under a fresh id, whatever the detached rubric check finds |
| Convocatorias.ProyectosDe | src/convocatorias/convocatorias.service.ts:44-50 | exactly the projects of the convocatoria |
| Convocatorias.GetAvailableConvocatorias | src/convocatorias/convocatorias.service.ts:29-58 | a convocatoria is listed iff it is active and the user is a student of none of its projects, with its projects |
| Convocatorias.EmptyConvocatoriaAvailable | src/convocatorias/convocatorias.service.ts:33-41 | an active convocatoria without projects is always offered |
| Convocatorias.StudentExcluded | src/convocatorias/convocatorias.service.ts:34-41 | a student of a project is never offered that project's convocatoria |
| Convocatorias.FindById | src/convocatorias/convocatorias.service.ts:64-113 | NotFound iff the id is unknown; otherwise that convocatoria |
| Convocatorias.FindByIdLabels | src/convocatorias/convocatorias.service.ts:103-112 | the projects keep their number, order and fields; the added label is Aula over Semillero over General |
| Convocatorias.FindByIdRubrica | src/convocatorias/convocatorias.service.ts:80-95 | the included rubric is present iff the convocatoria names an existing rubric; then its id, name and description, and exactly its criteria, once each, with their names, descriptions and score bounds |
| Convocatorias.LabelsDistinct | src/convocatorias/convocatorias.service.ts:107 | each label names exactly one kind |
| Search.MatchingConvocatorias | src/search/search.service.ts:12-22 | exactly the convocatorias whose title contains the query, ignoring case |
| Search.MatchingProyectos | src/search/search.service.ts:33-49 | exactly the projects whose title contains the query, ignoring case |
| Search.ConvocatoriaHits | src/search/search.service.ts:24-30 | one hit per matching convocatoria |
| Search.ProyectoHits | src/search/search.service.ts:52-65 | one hit per matching project |
| Search.Search | src/search/search.service.ts:8-68 | [] for an empty query; otherwise the convocatoria hits followed by the project hits, its length their sum |
| Search.ConvocatoriaHitsLayout | src/search/search.service.ts:24-30 | each convocatoria hit has tipo "Convocatoria" and the matching id and title, in order |
| Search.ProyectoHitsLayout | src/search/search.service.ts:52-65 | each project hit has tipo "Proyecto", the id and title, its convocatoria's title or "Sin convocatoria", and the kind label Aula over Semillero over General |
| Search.ConvocatoriaFound | src/search/search.service.ts:12-30 | a convocatoria is hit iff the query occurs in its title, ignoring case |
| Search.ProyectoFound | src/search/search.service.ts:33-65 | a project is hit iff the query occurs in its title, ignoring case |
| Search.SearchFinds | src/search/search.service.ts:8-67 | in the whole result, a record is found iff the query occurs in its title, ignoring case |

## Left out

- PDF drawing (rectangles, text, fonts, colours, line widths) is reduced to recorded events. Also not modelled:
  - date and time formatting (`toLocaleDateString`, `toLocaleTimeString`);
  - `toFixed(2)` on the score;
  - the text-centering arithmetic `filaHeight / 2`, which is not an integer.
- The text cursor under the continuation title depends on font metrics and is the parameter `continuedTop`.
- The script's file I/O (`readFileSync`, `writeFileSync`, the backup copy) is not modelled. `PatchedContent` is the text it writes.
- Prisma is replaced by the `Store` class:
  - Transactions are not modelled beyond "a failed guard writes nothing".
  - Database failures and the `try`/`catch` of `getAvailableConvocatorias` are not modelled.
  - Generated UUIDs are any identifier not yet in use (`FreshId`).
- `Promise.all` over students, criteria and notifications runs sequentially in DTO order, so races such as two concurrent creations of the same criterion are not modelled.
- Notifications sent without awaiting are appended in the order they are issued. Their failure handling is not modelled.
- The notification service is not modelled beyond an append to an outbox. A notification keeps its recipient, its title, the project and which template it uses. The message text and the recipient's name and e-mail are not kept.
- Passwords of created students (bcrypt) are not modelled. Authentication, guards, controllers, modules and DTO validation are not part of this model either; DTO fields are taken as already validated.
- Unicode:
  - Case mapping and `\p{L}` cover ASCII and the Latin-1 letters with a one-to-one case partner. Every other character, including ß, ÿ, ª, º and µ, is treated as caseless and not a letter.
  - `toLocaleLowerCase` in the object key of `uploadFile` is modelled by the locale-independent mapping, which assumes a server locale other than Turkish or Azeri (where "I" lower-cases to a dotless ı).
  - NFD is modelled only for the precomposed Latin-1 letters.
- Upload.FormatAscii: the order-preservation property is proved for ASCII names only, because NFD is modelled for Latin-1 only.
- The S3 `send`, the presigner, and the UUID, endpoint and bucket values are not modelled; the last three are parameters of `UploadFile`.
- Timestamps (`createdAt`, `updatedAt`, `fechaEvaluacion`) are not modelled. Dates are opaque integers.
- `Convocatorias.Create`:
  - The table default of `isActive` is a parameter, because the schema is not part of this model.
  - The un-awaited rubric lookup cannot affect the result, and its rejection is not modelled.
  - The foreign key on `rubricaId` is not checked.
- Rubricas.CreateRubrica: a `convocatoriaId` of "" is falsy in the source and is modelled as an absent one (`None`).
- Search.Search: an undefined query is modelled as "".
- Proyectos.GetProyectoById: the convocatoria's rubric is carried as its id only, and students as their ids, not as the nested records the query selects.
- Evaluaciones.GetEvaluacionByProyectoId: the evaluation's criteria and rubric records that the query includes are carried as the criterion rows only.
- Proyectos.CreatedNoticesRecipients: states who gets which notice and that the admin and creator notices come first. It does not state the relative order of the participant notices, which `CreatedNotices` defines as the order of the connected students.
- Evaluaciones.NotifyStudents: the order of the students' notices is the database's order of the relation, left open (some enumeration of the students).
- ProjectsTable.Height: text lengths are counted in characters (code points). JavaScript's `length` counts UTF-16 code units, so a title with characters outside the Basic Multilingual Plane (an emoji) is measured shorter than the script measures it, and row heights and page breaks can differ for such titles.
- ProjectsTable.SectionEvents: the section's `doc.addPage()`, its title with the project count and the `moveDown` before the table (fix-report.js lines 13-15) are not recorded. The events start at the table header or the empty-period message.
- Store.Criterio: `puntajeMin` and `puntajeMax` are integers, while the criterion DTO accepts any non-negative number, so a fractional bound such as 2.5 is not modelled. The evaluation scores (`puntaje`, `puntajeTotal`) are `@IsInt` in their DTO and are modelled exactly as integers of either sign.
- Reportes.KindCounts: the one-to-one detail relations (`DetailsLinked`) are the schema's unique foreign keys, taken as a precondition. `Store.Valid` does not carry them, because `createProyecto` links the detail record to the project in a second update.
- `getPromedioEvaluaciones`, `findAll`, `getRubricaById` and the other plain pass-through reads are not part of this model.
