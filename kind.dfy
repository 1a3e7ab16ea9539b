/** The kind of a project, derived from which detail record it has, and the three
    label vocabularies the backend prints for it. */
module Kind {

  datatype Kind = Aula | Semillero | Unspecified

  /** The services' rule (`proyectoAula ? ... : proyectoSemillero ? ... : ...`):
      an Aula detail takes precedence over a Semillero detail. */
  function ServiceKind(hasAula: bool, hasSemillero: bool): (k: Kind)
    ensures k == Aula <==> hasAula
    ensures k == Semillero <==> !hasAula && hasSemillero
  {
    if hasAula then Aula else if hasSemillero then Semillero else Unspecified
  }

  /** The report's rule: the label starts as unspecified, is set for an Aula detail
      and then overwritten for a Semillero detail, so Semillero takes precedence. */
  function ReportKind(hasAula: bool, hasSemillero: bool): (k: Kind)
    ensures k == Semillero <==> hasSemillero
    ensures k == Aula <==> hasAula && !hasSemillero
  {
    var k := Unspecified;
    var k := if hasAula then Aula else k;
    if hasSemillero then Semillero else k
  }

  /** The two precedence rules disagree only on a project that has both details,
      which project creation refuses. */
  lemma KindRulesAgree(hasAula: bool, hasSemillero: bool)
    ensures ServiceKind(hasAula, hasSemillero) == ReportKind(hasAula, hasSemillero)
            <==> !(hasAula && hasSemillero)
  {
  }

  /** "Aula" / "Semillero" / "General": `getProyectoById`, `getAllProyectos`,
      `findById` of convocatorias and the search results. */
  function GeneralLabel(k: Kind): string {
    match k
    case Aula => "Aula"
    case Semillero => "Semillero"
    case Unspecified => "General"
  }

  /** "AULA" / "SEMILLERO" / "SIN DEFINIR": `getProyectosByUser` and
      `getProyectosSinCalificar`. */
  function UpperLabel(k: Kind): string {
    match k
    case Aula => "AULA"
    case Semillero => "SEMILLERO"
    case Unspecified => "SIN DEFINIR"
  }

  /** "Aula" / "Semillero" / "No especificado": the projects table of the report. */
  function ReportLabel(k: Kind): string {
    match k
    case Aula => "Aula"
    case Semillero => "Semillero"
    case Unspecified => "No especificado"
  }

  /** Every vocabulary tells the three kinds apart. */
  lemma LabelsInjective(k1: Kind, k2: Kind)
    ensures GeneralLabel(k1) == GeneralLabel(k2) ==> k1 == k2
    ensures UpperLabel(k1) == UpperLabel(k2) ==> k1 == k2
    ensures ReportLabel(k1) == ReportLabel(k2) ==> k1 == k2
  {
  }
}
