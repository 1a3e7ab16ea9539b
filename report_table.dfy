/** The projects table of the PDF report: a loop over the projects that keeps a
    vertical cursor `tableY`, the top of the current table segment `tableStartY` and
    an alternating-shade flag. Rows get a height estimated from the length of their
    two long texts; a row that would cross y = 700 first closes the current segment,
    starts a new page and redraws the column header. Drawing calls are recorded as
    events. */
module ProjectsTable {
  import opened Common
  import opened Kind

  const MinRowHeight: int := 40
  const CharsPerLine: int := 25
  const LineHeight: int := 14
  const RowPadding: int := 10
  const PageBreakY: int := 700
  const HeaderHeight: int := 30

  /** One project as the report query returns it (title, title of its convocatoria,
      which detail record it has and the total score of its evaluation, if any). */
  datatype ProjectSummary = ProjectSummary(
    titulo: string,
    convocatoriaTitulo: string,
    hasAula: bool,
    hasSemillero: bool,
    puntajeTotal: Option<int>)

  // ---------------------------------------------------------------------------
  // Row height
  // ---------------------------------------------------------------------------

  /** `Math.ceil(len / 25)`: the wrapped line count of a text of `len` characters. */
  function Lines(len: nat): (n: nat)
    ensures n * 25 >= len && (n == 0 || (n - 1) * 25 < len)
  {
    (len + 24) / 25
  }

  function Max(a: int, b: int): int {
    if a >= b then a else b
  }

  /** The height of a row whose title and convocatoria title have the given lengths:
      room for the longer of the two wrapped texts, and never less than 40. */
  function RowHeight(tituloLen: nat, convocatoriaLen: nat): (h: int)
    ensures h >= MinRowHeight
    ensures h == MinRowHeight <==> tituloLen <= 2 * CharsPerLine && convocatoriaLen <= 2 * CharsPerLine
    ensures h > MinRowHeight ==> h == 14 * Lines(Max(tituloLen, convocatoriaLen)) + 10
  {
    var maxLines := Max(Max(Lines(tituloLen), Lines(convocatoriaLen)), 1);
    Max(MinRowHeight, maxLines * 14 + 10)
  }

  lemma {:induction false} LinesMonotone(a: nat, b: nat)
    requires a <= b
    ensures Lines(a) <= Lines(b)
  {
  }

  /** Longer texts never give a shorter row. */
  lemma RowHeightMonotone(t1: nat, c1: nat, t2: nat, c2: nat)
    requires t1 <= t2 && c1 <= c2
    ensures RowHeight(t1, c1) <= RowHeight(t2, c2)
  {
    LinesMonotone(t1, t2);
    LinesMonotone(c1, c2);
  }

  function Height(p: ProjectSummary): (h: int)
    ensures h >= MinRowHeight
  {
    RowHeight(|p.titulo|, |p.convocatoriaTitulo|)
  }

  // ---------------------------------------------------------------------------
  // Score colour and type label
  // ---------------------------------------------------------------------------

  datatype ScoreColour = Green | Orange | Red | Gray

  /** Green from 70, orange from 50, red below; gray when there is no evaluation. */
  function ScoreColourOf(puntaje: Option<int>): (c: ScoreColour)
    ensures c == Gray <==> puntaje.None?
    ensures c == Green <==> puntaje.Some? && puntaje.value >= 70
    ensures c == Orange <==> puntaje.Some? && 50 <= puntaje.value < 70
    ensures c == Red <==> puntaje.Some? && puntaje.value < 50
  {
    match puntaje
    case None => Gray
    case Some(n) => if n >= 70 then Green else if n >= 50 then Orange else Red
  }

  function ColourRank(c: ScoreColour): int {
    match c
    case Gray => 0
    case Red => 1
    case Orange => 2
    case Green => 3
  }

  /** A higher score never gets a worse colour. */
  lemma ScoreColourMonotone(a: int, b: int)
    requires a <= b
    ensures 1 <= ColourRank(ScoreColourOf(Some(a))) <= ColourRank(ScoreColourOf(Some(b)))
  {
  }

  /** The label of the type column. */
  function TipoLabel(p: ProjectSummary): (s: string)
    ensures p.hasSemillero ==> s == "Semillero"
    ensures p.hasAula && !p.hasSemillero ==> s == "Aula"
    ensures !p.hasAula && !p.hasSemillero ==> s == "No especificado"
  {
    ReportLabel(ReportKind(p.hasAula, p.hasSemillero))
  }

  // ---------------------------------------------------------------------------
  // Events and the layout as a function of the inputs
  // ---------------------------------------------------------------------------

  datatype Event =
    | Header(top: int)                    // column header band, HeaderHeight tall
    | RowBox(top: int, height: int, shaded: bool, tipo: string,
             puntaje: Option<int>, colour: ScoreColour)  // one project's row
    | RowRule(y: int)                     // horizontal line under a row
    | Border(top: int, bottom: int)       // outer rectangle of a table segment
    | NewPage                             // new page with the "(continuación)" title
    | ColumnLines(top: int, bottom: int)  // vertical column separators
    | NoProjects                          // message for an empty period

  /** The loop's three variables. */
  datatype Cursor = Cursor(tableStartY: int, tableY: int, colorAlternado: bool)

  /** The cursor right after the first header was drawn at `top`. */
  function Initial(top: int): Cursor {
    Cursor(top, top + HeaderHeight, false)
  }

  /** The row does not fit under the current cursor. */
  predicate Breaks(c: Cursor, p: ProjectSummary) {
    c.tableY + Height(p) > PageBreakY
  }

  /** The cursor after the optional page break, where the row is drawn. */
  function Landing(c: Cursor, p: ProjectSummary, continuedTop: int): Cursor {
    if Breaks(c, p) then Cursor(continuedTop, continuedTop + HeaderHeight, false) else c
  }

  /** The cursor after one iteration of the loop. */
  function Step(c: Cursor, p: ProjectSummary, continuedTop: int): Cursor {
    var l := Landing(c, p, continuedTop);
    Cursor(l.tableStartY, l.tableY + Height(p), !l.colorAlternado)
  }

  function RowEvent(c: Cursor, p: ProjectSummary): Event {
    RowBox(c.tableY, Height(p), c.colorAlternado, TipoLabel(p), p.puntajeTotal, ScoreColourOf(p.puntajeTotal))
  }

  /** What one iteration of the loop draws. */
  function StepEvents(c: Cursor, p: ProjectSummary, continuedTop: int): seq<Event> {
    var l := Landing(c, p, continuedTop);
    (if Breaks(c, p) then [Border(c.tableStartY, c.tableY), NewPage, Header(continuedTop)] else [])
    + [RowEvent(l, p), RowRule(l.tableY + Height(p))]
  }

  /** The cursor after the loop has processed `ps`. */
  function Run(c: Cursor, ps: seq<ProjectSummary>, continuedTop: int): Cursor {
    if ps == [] then c
    else Step(Run(c, ps[..|ps| - 1], continuedTop), ps[|ps| - 1], continuedTop)
  }

  /** What the loop draws for `ps`. */
  function RunEvents(c: Cursor, ps: seq<ProjectSummary>, continuedTop: int): seq<Event> {
    if ps == [] then []
    else
      var init := ps[..|ps| - 1];
      RunEvents(c, init, continuedTop) + StepEvents(Run(c, init, continuedTop), ps[|ps| - 1], continuedTop)
  }

  /** The whole section: the empty-period message, or the header, the rows and the
      closing column lines and border of the last segment. */
  function SectionEvents(ps: seq<ProjectSummary>, top: int, continuedTop: int): seq<Event> {
    if ps == [] then [NoProjects]
    else
      var end := Run(Initial(top), ps, continuedTop);
      [Header(top)] + RunEvents(Initial(top), ps, continuedTop)
      + [ColumnLines(end.tableStartY, end.tableY), Border(end.tableStartY, end.tableY)]
  }

  // ---------------------------------------------------------------------------
  // The loop, as the source runs it
  // ---------------------------------------------------------------------------

  /** The table writer: the loop variables and the drawing calls made so far. */
  class TableWriter {
    var tableStartY: int
    var tableY: int
    var colorAlternado: bool
    var events: seq<Event>
    const continuedTop: int

    function State(): Cursor
      reads this
    {
      Cursor(tableStartY, tableY, colorAlternado)
    }

    /** Draws the first header at `top`; `continuedTop` is where the title of every
        continuation page leaves the text cursor. */
    constructor (top: int, continuedTop: int)
      ensures State() == Initial(top) && this.continuedTop == continuedTop
      ensures events == [Header(top)]
    {
      tableStartY := top;
      events := [Header(top)];
      tableY := top + HeaderHeight;
      colorAlternado := false;
      this.continuedTop := continuedTop;
    }

    /** One iteration of the loop. */
    method AddRow(p: ProjectSummary)
      modifies this
      ensures State() == Step(old(State()), p, continuedTop)
      ensures events == old(events) + StepEvents(old(State()), p, continuedTop)
    {
      var filaHeight := Height(p);
      if tableY + filaHeight > PageBreakY {
        events := events + [Border(tableStartY, tableY), NewPage];
        tableStartY := continuedTop;
        events := events + [Header(tableStartY)];
        tableY := tableStartY + HeaderHeight;
        colorAlternado := false;
      }
      events := events + [RowBox(tableY, filaHeight, colorAlternado, TipoLabel(p),
                                 p.puntajeTotal, ScoreColourOf(p.puntajeTotal))];
      colorAlternado := !colorAlternado;
      tableY := tableY + filaHeight;
      events := events + [RowRule(tableY)];
    }

    /** The loop over all projects. */
    method AddRows(ps: seq<ProjectSummary>)
      modifies this
      ensures State() == Run(old(State()), ps, continuedTop)
      ensures events == old(events) + RunEvents(old(State()), ps, continuedTop)
    {
      ghost var c0 := State();
      ghost var e0 := events;
      for i := 0 to |ps|
        invariant State() == Run(c0, ps[..i], continuedTop)
        invariant events == e0 + RunEvents(c0, ps[..i], continuedTop)
      {
        RunPrefix(c0, ps, i, continuedTop);
        ghost var cur := State();
        ghost var done := RunEvents(c0, ps[..i], continuedTop);
        AddRow(ps[i]);
        ConcatAssoc(e0, done, StepEvents(cur, ps[i], continuedTop));
      }
      assert ps[..|ps|] == ps;
    }

    /** The column separators and the outer border of the last segment. */
    method Close()
      modifies this`events
      ensures events == old(events) + [ColumnLines(tableStartY, tableY), Border(tableStartY, tableY)]
    {
      events := events + [ColumnLines(tableStartY, tableY), Border(tableStartY, tableY)];
    }
  }

  /** Renders the projects section. `top` is the text cursor under the section title;
      `continuedTop` the one under the title of a continuation page. */
  method RenderProjects(ps: seq<ProjectSummary>, top: int, continuedTop: int) returns (events: seq<Event>)
    ensures events == SectionEvents(ps, top, continuedTop)
  {
    if |ps| == 0 {
      events := [NoProjects];
      return;
    }
    var t := new TableWriter(top, continuedTop);
    t.AddRows(ps);
    t.Close();
    events := t.events;
  }

  // ---------------------------------------------------------------------------
  // What the layout guarantees
  // ---------------------------------------------------------------------------

  /** The row events of an event list, in order. */
  function Rows(es: seq<Event>): seq<Event> {
    if es == [] then [] else (if es[0].RowBox? then [es[0]] else []) + Rows(es[1..])
  }

  lemma {:induction false} RowsAppend(a: seq<Event>, b: seq<Event>)
    ensures Rows(a + b) == Rows(a) + Rows(b)
  {
    if a == [] {
      assert a + b == b;
    } else {
      var h := if a[0].RowBox? then [a[0]] else [];
      assert (a + b)[0] == a[0];
      assert (a + b)[1..] == a[1..] + b;
      assert Rows(a + b) == h + Rows(a[1..] + b);
      RowsAppend(a[1..], b);
      assert Rows(a) == h + Rows(a[1..]);
      assert h + (Rows(a[1..]) + Rows(b)) == (h + Rows(a[1..])) + Rows(b);
    }
  }

  lemma {:induction false} RunPrefix(c: Cursor, ps: seq<ProjectSummary>, k: nat, continuedTop: int)
    requires k < |ps|
    ensures Run(c, ps[..k + 1], continuedTop) == Step(Run(c, ps[..k], continuedTop), ps[k], continuedTop)
    ensures RunEvents(c, ps[..k + 1], continuedTop)
            == RunEvents(c, ps[..k], continuedTop) + StepEvents(Run(c, ps[..k], continuedTop), ps[k], continuedTop)
  {
    assert ps[..k + 1][..k] == ps[..k];
    assert ps[..k + 1][k] == ps[k];
  }

  lemma RowsSingle(e: Event)
    ensures Rows([e]) == if e.RowBox? then [e] else []
  {
    assert [e][1..] == [];
  }

  lemma RowThenRule(r: Event, y: int)
    requires r.RowBox?
    ensures Rows([r, RowRule(y)]) == [r]
  {
    assert [r, RowRule(y)][1..] == [RowRule(y)];
    RowsSingle(RowRule(y));
  }

  lemma PageBreakRows(top: int, bottom: int, continuedTop: int)
    ensures Rows([Border(top, bottom), NewPage, Header(continuedTop)]) == []
  {
    var es := [Border(top, bottom), NewPage, Header(continuedTop)];
    assert es[1..] == [NewPage, Header(continuedTop)];
    assert es[1..][1..] == [Header(continuedTop)];
    RowsSingle(Header(continuedTop));
  }

  lemma StepRows(c: Cursor, p: ProjectSummary, continuedTop: int)
    ensures Rows(StepEvents(c, p, continuedTop)) == [RowEvent(Landing(c, p, continuedTop), p)]
  {
    var l := Landing(c, p, continuedTop);
    var r := RowEvent(l, p);
    var y := l.tableY + Height(p);
    RowThenRule(r, y);
    if Breaks(c, p) {
      var pre := [Border(c.tableStartY, c.tableY), NewPage, Header(continuedTop)];
      assert StepEvents(c, p, continuedTop) == pre + [r, RowRule(y)];
      PageBreakRows(c.tableStartY, c.tableY, continuedTop);
      RowsAppend(pre, [r, RowRule(y)]);
    } else {
      assert StepEvents(c, p, continuedTop) == [r, RowRule(y)];
    }
  }

  /** The row drawn for the `k`-th project. */
  function RowAt(c: Cursor, ps: seq<ProjectSummary>, k: nat, continuedTop: int): Event
    requires k < |ps|
  {
    RowEvent(Landing(Run(c, ps[..k], continuedTop), ps[k], continuedTop), ps[k])
  }

  lemma RunRowsLast(c: Cursor, ps: seq<ProjectSummary>, continuedTop: int)
    requires ps != []
    ensures var n := |ps| - 1;
            Rows(RunEvents(c, ps, continuedTop))
            == Rows(RunEvents(c, ps[..n], continuedTop)) + [RowAt(c, ps, n, continuedTop)]
  {
    var n := |ps| - 1;
    var prev := Run(c, ps[..n], continuedTop);
    RowsAppend(RunEvents(c, ps[..n], continuedTop), StepEvents(prev, ps[n], continuedTop));
    StepRows(prev, ps[n], continuedTop);
  }

  /** The row drawn for a project does not depend on the projects after it. */
  lemma RowAtPrefix(c: Cursor, ps: seq<ProjectSummary>, n: nat, k: nat, continuedTop: int)
    requires k < n <= |ps|
    ensures RowAt(c, ps[..n], k, continuedTop) == RowAt(c, ps, k, continuedTop)
  {
    assert ps[..n][..k] == ps[..k];
    assert ps[..n][k] == ps[k];
  }

  /** The rows drawn by the loop: exactly one per project, in input order, each at the
      place the cursor had reached when its project came up. */
  lemma {:induction false} RunRows(c: Cursor, ps: seq<ProjectSummary>, continuedTop: int)
    ensures |Rows(RunEvents(c, ps, continuedTop))| == |ps|
    ensures forall k :: 0 <= k < |ps| ==> Rows(RunEvents(c, ps, continuedTop))[k] == RowAt(c, ps, k, continuedTop)
    decreases |ps|
  {
    if ps != [] {
      var n := |ps| - 1;
      var init := ps[..n];
      RunRows(c, init, continuedTop);
      RunRowsLast(c, ps, continuedTop);
      var rows := Rows(RunEvents(c, ps, continuedTop));
      var prevRows := Rows(RunEvents(c, init, continuedTop));
      assert rows == prevRows + [RowAt(c, ps, n, continuedTop)];
      forall k | 0 <= k < |ps|
        ensures rows[k] == RowAt(c, ps, k, continuedTop)
      {
        if k < n {
          assert rows[k] == prevRows[k] == RowAt(c, init, k, continuedTop);
          RowAtPrefix(c, ps, n, k, continuedTop);
        } else {
          assert rows[k] == RowAt(c, ps, n, continuedTop);
        }
      }
    }
  }

  /** Events that are not rows around a run of events leave its rows unchanged. */
  lemma FramedRows(h: Event, mid: seq<Event>, a: Event, b: Event)
    requires !h.RowBox? && !a.RowBox? && !b.RowBox?
    ensures Rows([h] + mid + [a, b]) == Rows(mid)
  {
    RowsAppend([h], mid);
    RowsAppend([h] + mid, [a, b]);
    RowsSingle(h);
    assert [a, b][1..] == [b];
    RowsSingle(b);
  }

  lemma SectionRows(ps: seq<ProjectSummary>, top: int, continuedTop: int)
    requires ps != []
    ensures |Rows(SectionEvents(ps, top, continuedTop))| == |ps|
    ensures forall k :: 0 <= k < |ps| ==>
              Rows(SectionEvents(ps, top, continuedTop))[k] == RowAt(Initial(top), ps, k, continuedTop)
  {
    var c := Initial(top);
    var end := Run(c, ps, continuedTop);
    RunRows(c, ps, continuedTop);
    FramedRows(Header(top), RunEvents(c, ps, continuedTop),
               ColumnLines(end.tableStartY, end.tableY), Border(end.tableStartY, end.tableY));
  }

  // ---------------------------------------------------------------------------
  // Page breaks, placement, shading and the cursor
  // ---------------------------------------------------------------------------

  /** A page break happened right before the `k`-th row. */
  predicate BrokeAt(c: Cursor, ps: seq<ProjectSummary>, k: nat, continuedTop: int)
    requires k < |ps|
  {
    Breaks(Run(c, ps[..k], continuedTop), ps[k])
  }

  /** Whether a page break happened before each row. */
  function BreakFlags(c: Cursor, ps: seq<ProjectSummary>, continuedTop: int): (flags: seq<bool>)
    ensures |flags| == |ps| && forall k :: 0 <= k < |ps| ==> flags[k] == BrokeAt(c, ps, k, continuedTop)
  {
    seq(|ps|, k requires 0 <= k < |ps| => BrokeAt(c, ps, k, continuedTop))
  }

  /** Index of the first row of the segment that holds row `k`, given where the
      breaks are. */
  function StartOf(flags: seq<bool>, k: nat): (s: nat)
    requires k < |flags|
    ensures s <= k
  {
    if k == 0 || flags[k] then k else StartOf(flags, k - 1)
  }

  /** Index of the first row of the page segment that holds row `k`. */
  function SegmentStart(c: Cursor, ps: seq<ProjectSummary>, k: nat, continuedTop: int): (s: nat)
    requires k < |ps|
    ensures s <= k
  {
    StartOf(BreakFlags(c, ps, continuedTop), k)
  }

  /** Index of the first row of the segment still open after `k` rows. */
  function OpenSegment(c: Cursor, ps: seq<ProjectSummary>, k: nat, continuedTop: int): (s: nat)
    requires k <= |ps|
    ensures s <= k
  {
    if k == 0 then 0 else SegmentStart(c, ps, k - 1, continuedTop)
  }

  function SumHeights(ps: seq<ProjectSummary>): int {
    if ps == [] then 0 else SumHeights(ps[..|ps| - 1]) + Height(ps[|ps| - 1])
  }

  /** Where row `k` lands. It is drawn under the cursor when it fits above y = 700,
      so that its bottom is at most 700; otherwise right under the new header of a
      fresh page, unshaded. Either way the cursor then advances by exactly the row's
      height, and a row that did not break starts where the previous row ended. */
  lemma RowPlacement(c: Cursor, ps: seq<ProjectSummary>, k: nat, continuedTop: int)
    requires k < |ps|
    ensures var before := Run(c, ps[..k], continuedTop);
            var row := RowAt(c, ps, k, continuedTop);
            && (BrokeAt(c, ps, k, continuedTop) <==> before.tableY + Height(ps[k]) > PageBreakY)
            && row.height == Height(ps[k])
            && (BrokeAt(c, ps, k, continuedTop) ==> row.top == continuedTop + HeaderHeight && !row.shaded)
            && (!BrokeAt(c, ps, k, continuedTop) ==>
                  row.top == before.tableY && row.top + row.height <= PageBreakY
                  && row.shaded == before.colorAlternado)
            && Run(c, ps[..k + 1], continuedTop).tableY == row.top + row.height
            && (k > 0 && !BrokeAt(c, ps, k, continuedTop) ==>
                  var prev := RowAt(c, ps, k - 1, continuedTop);
                  row.top == prev.top + prev.height)
  {
    RunPrefix(c, ps, k, continuedTop);
    if k > 0 {
      RunPrefix(c, ps, k - 1, continuedTop);
    }
  }

  /** The first row is unshaded. */
  lemma ShadingFirst(top: int, ps: seq<ProjectSummary>, continuedTop: int)
    requires 0 < |ps|
    ensures !RowAt(Initial(top), ps, 0, continuedTop).shaded
  {
    assert ps[..0] == [];
  }

  /** A row after a break is unshaded; any other row has the opposite shading of
      the row before it. */
  lemma ShadingStep(c: Cursor, ps: seq<ProjectSummary>, k: nat, continuedTop: int)
    requires 0 < k < |ps|
    ensures BrokeAt(c, ps, k, continuedTop) ==> !RowAt(c, ps, k, continuedTop).shaded
    ensures !BrokeAt(c, ps, k, continuedTop) ==>
              RowAt(c, ps, k, continuedTop).shaded == !RowAt(c, ps, k - 1, continuedTop).shaded
  {
    RunPrefix(c, ps, k - 1, continuedTop);
    assert ps[..k - 1 + 1] == ps[..k];
  }

  /** Flags that restart at every break and otherwise flip alternate with the
      position inside the segment. */
  lemma {:induction false} Alternation(shaded: seq<bool>, flags: seq<bool>, k: nat)
    requires |shaded| == |flags| && k < |flags|
    requires |flags| > 0 ==> !shaded[0]
    requires forall j :: 0 < j < |flags| ==> shaded[j] == (!flags[j] && !shaded[j - 1])
    ensures shaded[k] <==> (k - StartOf(flags, k)) % 2 == 1
  {
    if k > 0 {
      assert shaded[k] == (!flags[k] && !shaded[k - 1]);
    }
    if k > 0 && !flags[k] {
      Alternation(shaded, flags, k - 1);
      var s := StartOf(flags, k - 1);
      assert (k - s) % 2 == 1 <==> (k - 1 - s) % 2 == 0;
    }
  }

  /** Within each page segment the rows alternate, the first one unshaded: row `k` is
      shaded exactly when its position inside its segment is odd. */
  lemma ShadingAlternates(top: int, ps: seq<ProjectSummary>, k: nat, continuedTop: int)
    requires k < |ps|
    ensures RowAt(Initial(top), ps, k, continuedTop).shaded
            <==> (k - SegmentStart(Initial(top), ps, k, continuedTop)) % 2 == 1
  {
    var c := Initial(top);
    var flags := BreakFlags(c, ps, continuedTop);
    var shaded := seq(|ps|, j requires 0 <= j < |ps| => RowAt(c, ps, j, continuedTop).shaded);
    ShadingFirst(top, ps, continuedTop);
    forall j | 0 < j < |ps|
      ensures shaded[j] == (!flags[j] && !shaded[j - 1])
    {
      ShadingStep(c, ps, j, continuedTop);
    }
    Alternation(shaded, flags, k);
  }

  lemma SumHeightsSnoc(ps: seq<ProjectSummary>, s: nat, k: nat)
    requires s <= k < |ps|
    ensures SumHeights(ps[s..k + 1]) == SumHeights(ps[s..k]) + Height(ps[k])
  {
    assert ps[s..k + 1][..k - s] == ps[s..k];
  }

  /** The open segment after `k` rows starts at row `k - 1` when that row broke the
      page, and is the one open after `k - 1` rows otherwise. */
  lemma OpenSegmentStep(c: Cursor, ps: seq<ProjectSummary>, k: nat, continuedTop: int)
    requires 0 < k <= |ps|
    ensures OpenSegment(c, ps, k, continuedTop)
            == if BrokeAt(c, ps, k - 1, continuedTop) then k - 1 else OpenSegment(c, ps, k - 1, continuedTop)
  {
    var flags := BreakFlags(c, ps, continuedTop);
    assert flags[k - 1] == BrokeAt(c, ps, k - 1, continuedTop);
  }

  /** A row that breaks the page opens a segment at `continuedTop` holding just it. */
  lemma CursorAfterBreak(c: Cursor, ps: seq<ProjectSummary>, j: nat, continuedTop: int)
    requires j < |ps| && BrokeAt(c, ps, j, continuedTop)
    ensures var cur := Run(c, ps[..j + 1], continuedTop);
            && OpenSegment(c, ps, j + 1, continuedTop) == j
            && cur.tableStartY == continuedTop
            && cur.tableY == continuedTop + HeaderHeight + SumHeights(ps[j..j + 1])
  {
    RunPrefix(c, ps, j, continuedTop);
    OpenSegmentStep(c, ps, j + 1, continuedTop);
    assert ps[j..j + 1][..0] == [];
  }

  /** A row that fits stays in the open segment and moves the cursor down by its
      height. */
  lemma CursorAfterFit(c: Cursor, ps: seq<ProjectSummary>, j: nat, continuedTop: int)
    requires j < |ps| && !BrokeAt(c, ps, j, continuedTop)
    ensures var cur := Run(c, ps[..j], continuedTop);
            var next := Run(c, ps[..j + 1], continuedTop);
            && OpenSegment(c, ps, j + 1, continuedTop) == OpenSegment(c, ps, j, continuedTop)
            && next.tableStartY == cur.tableStartY
            && next.tableY == cur.tableY + Height(ps[j])
  {
    RunPrefix(c, ps, j, continuedTop);
    OpenSegmentStep(c, ps, j + 1, continuedTop);
  }

  /** The cursor after `k` rows: the open segment starts at the first header (`top`)
      unless a break occurred, then at `continuedTop`; and the cursor stands at that
      segment's top plus the header plus the heights of the segment's rows. */
  lemma {:induction false} SegmentCursor(top: int, ps: seq<ProjectSummary>, k: nat, continuedTop: int)
    requires k <= |ps|
    ensures var c := Initial(top);
            var cur := Run(c, ps[..k], continuedTop);
            var s := OpenSegment(c, ps, k, continuedTop);
            && cur.tableStartY == (if k > 0 && BrokeAt(c, ps, s, continuedTop) then continuedTop else top)
            && cur.tableY == cur.tableStartY + HeaderHeight + SumHeights(ps[s..k])
  {
    var c := Initial(top);
    if k > 0 {
      var j := k - 1;
      SegmentCursor(top, ps, j, continuedTop);
      if BrokeAt(c, ps, j, continuedTop) {
        CursorAfterBreak(c, ps, j, continuedTop);
      } else {
        CursorAfterFit(c, ps, j, continuedTop);
        SumHeightsSnoc(ps, OpenSegment(c, ps, j, continuedTop), j);
      }
    } else {
      assert ps[..0] == [];
    }
  }

  lemma {:induction false} RunAppend(c: Cursor, a: seq<ProjectSummary>, b: seq<ProjectSummary>, continuedTop: int)
    ensures Run(c, a + b, continuedTop) == Run(Run(c, a, continuedTop), b, continuedTop)
    decreases |b|
  {
    if b == [] {
      assert a + b == a;
    } else {
      var n := |b| - 1;
      RunAppend(c, a, b[..n], continuedTop);
      assert (a + b)[..|a + b| - 1] == a + b[..n];
      assert (a + b)[|a + b| - 1] == b[n];
    }
  }

  lemma {:induction false} RunEventsAppend(c: Cursor, a: seq<ProjectSummary>, b: seq<ProjectSummary>, continuedTop: int)
    ensures RunEvents(c, a + b, continuedTop)
            == RunEvents(c, a, continuedTop) + RunEvents(Run(c, a, continuedTop), b, continuedTop)
    decreases |b|
  {
    if b == [] {
      assert a + b == a;
    } else {
      var n := |b| - 1;
      var mid := Run(c, a, continuedTop);
      assert (a + b)[..|a + b| - 1] == a + b[..n];
      assert (a + b)[|a + b| - 1] == b[n];
      calc {
        RunEvents(c, a + b, continuedTop);
        RunEvents(c, a + b[..n], continuedTop) + StepEvents(Run(c, a + b[..n], continuedTop), b[n], continuedTop);
        { RunEventsAppend(c, a, b[..n], continuedTop); RunAppend(c, a, b[..n], continuedTop); }
        RunEvents(c, a, continuedTop) + RunEvents(mid, b[..n], continuedTop)
          + StepEvents(Run(mid, b[..n], continuedTop), b[n], continuedTop);
        RunEvents(c, a, continuedTop) + RunEvents(mid, b, continuedTop);
      }
    }
  }

  /** The events of the whole loop are those of the first `k` iterations, then those
      of iteration `k`, then the rest: each iteration's drawing calls appear together
      and in input order. */
  lemma RunEventsAt(c: Cursor, ps: seq<ProjectSummary>, k: nat, continuedTop: int)
    requires k < |ps|
    ensures RunEvents(c, ps, continuedTop)
            == RunEvents(c, ps[..k], continuedTop)
               + StepEvents(Run(c, ps[..k], continuedTop), ps[k], continuedTop)
               + RunEvents(Run(c, ps[..k + 1], continuedTop), ps[k + 1..], continuedTop)
  {
    assert ps == ps[..k + 1] + ps[k + 1..];
    RunEventsAppend(c, ps[..k + 1], ps[k + 1..], continuedTop);
    RunPrefix(c, ps, k, continuedTop);
    assert ps[..k + 1][..k] == ps[..k];
  }

  /** On a break before row `k`, the iteration first closes the segment in progress:
      its border runs from the segment's top to the bottom of the segment's last row
      (to the bottom of the header when the segment has no row), and then a new page
      and a new header follow. */
  lemma BreakClosesSegment(top: int, ps: seq<ProjectSummary>, k: nat, continuedTop: int)
    requires k < |ps| && BrokeAt(Initial(top), ps, k, continuedTop)
    ensures var c := Initial(top);
            var cur := Run(c, ps[..k], continuedTop);
            var bottom := if k == 0 then top + HeaderHeight
                          else RowAt(c, ps, k - 1, continuedTop).top + RowAt(c, ps, k - 1, continuedTop).height;
            StepEvents(cur, ps[k], continuedTop)[..3]
            == [Border(cur.tableStartY, bottom), NewPage, Header(continuedTop)]
  {
    if k > 0 {
      RowPlacement(Initial(top), ps, k - 1, continuedTop);
    }
  }
}
