/**
 * The spreadsheet generator: a template's active sheet is filled with the
 * answers (column 3 of every row whose column 1 holds a question number), a
 * provenance line overwrites column 1 of the last row, and the result is saved
 * under a sanitised file name.
 *
 * A sheet is a grid from (row, column) to a cell; a position that is not in
 * the grid reads as an empty cell, as openpyxl does.
 */
module ExcelService {
  import opened Wrappers
  import opened Text
  import opened Python
  import opened AppConfig
  import Helpers
  import FileService

  // ---------------------------------------------------------------------------
  // Cells and sheets
  // ---------------------------------------------------------------------------

  datatype Cell = Empty | Int(n: int) | Str(s: string)

  type Grid = map<(int, int), Cell>

  function CellAt(g: Grid, row: int, col: int): Cell {
    if (row, col) in g then g[(row, col)] else Empty
  }

  /** A saved or loaded sheet: its cells and openpyxl's `max_row`. */
  datatype SheetData = SheetData(cells: Grid, maxRow: int)

  /** openpyxl numbers rows and columns from 1, and `max_row` is at least 1 and bounds every row. */
  predicate WellFormed(cells: Grid, maxRow: int) {
    && maxRow >= 1
    && forall p :: p in cells ==> 1 <= p.0 <= maxRow && p.1 >= 1
  }

  /** Python truthiness of a cell value: None, 0 and "" are false. */
  predicate Truthy(c: Cell) {
    match c
    case Empty => false
    case Int(n) => n != 0
    case Str(s) => s != ""
  }

  /** Python's `str()` of a cell value. */
  function StrForm(c: Cell): string {
    match c
    case Empty => "None"
    case Int(n) => IntToString(n)
    case Str(s) => s
  }

  /** The question number a column-1 value stands for: `int(v)` when `v and str(v).isdigit()`. */
  function QuestionId(c: Cell): Option<nat> {
    if Truthy(c) && IsDigits(StrForm(c)) then Some(ParseDigits(StrForm(c))) else None
  }

  /** An integer cell is a question slot exactly when it is positive, and then for itself. */
  lemma QuestionIdInt(n: int)
    ensures QuestionId(Int(n)) == if n > 0 then Some(n) else None
  {
    IntToStringIsDigits(n);
    if n > 0 {
      ParseNatToString(n);
    }
  }

  /** A text cell is a question slot exactly when it is all digits, leading zeros and "0" included. */
  lemma QuestionIdStr(s: string)
    ensures QuestionId(Str(s)).Some? <==> IsDigits(s)
    ensures IsDigits(s) ==> QuestionId(Str(s)) == Some(ParseDigits(s))
  {
  }

  lemma QuestionIdExamples()
    ensures QuestionId(Str("007")) == Some(7)
    ensures QuestionId(Str("0")) == Some(0)
    ensures QuestionId(Int(0)) == None && QuestionId(Int(-3)) == None
    ensures QuestionId(Str("")) == None && QuestionId(Str("12a")) == None
  {
    assert "007"[..2] == "00" && "00"[..1] == "0" && "0"[..0] == "";
    assert !IsDigitChar("12a"[2]);
    QuestionIdInt(0);
    QuestionIdInt(-3);
  }

  // ---------------------------------------------------------------------------
  // Filling the answers (_llenar_respuestas)
  // ---------------------------------------------------------------------------

  /** Row `row` is a question slot whose number has an answer. */
  predicate Answered(g: Grid, answers: map<int, string>, row: int) {
    var id := QuestionId(CellAt(g, row, 1));
    id.Some? && id.value in answers
  }

  function AnswerFor(g: Grid, answers: map<int, string>, row: int): string
    requires Answered(g, answers, row)
  {
    answers[QuestionId(CellAt(g, row, 1)).value]
  }

  /** One iteration of the row loop. */
  function FillRow(g: Grid, answers: map<int, string>, row: int): Grid {
    if Answered(g, answers, row) then g[(row, 3) := Str(AnswerFor(g, answers, row))] else g
  }

  /** The grid after the row loop has visited rows `row` through `maxRow`. */
  function FillFrom(g: Grid, answers: map<int, string>, row: int, maxRow: int): Grid
    decreases maxRow - row
  {
    if row > maxRow then g else FillFrom(FillRow(g, answers, row), answers, row + 1, maxRow)
  }

  /**
   * The effect of the row loop on each cell: column 3 of an answered row between
   * `row` and `maxRow` holds the answer; every other cell is unchanged.
   */
  lemma {:induction false} FillFromCell(g: Grid, answers: map<int, string>, row: int, maxRow: int, r: int, c: int)
    ensures CellAt(FillFrom(g, answers, row, maxRow), r, c)
      == if c == 3 && row <= r <= maxRow && Answered(g, answers, r) then Str(AnswerFor(g, answers, r)) else CellAt(g, r, c)
    decreases maxRow - row
  {
    if row <= maxRow {
      var g' := FillRow(g, answers, row);
      FillFromCell(g', answers, row + 1, maxRow, r, c);
      assert CellAt(g', r, 1) == CellAt(g, r, 1);
    }
  }

  /** The row loop keeps openpyxl's shape: it only writes column 3 of rows up to `maxRow`. */
  lemma {:induction false} FillFromWellFormed(g: Grid, answers: map<int, string>, row: int, maxRow: int)
    requires WellFormed(g, maxRow) && row >= 1
    ensures WellFormed(FillFrom(g, answers, row, maxRow), maxRow)
    decreases maxRow - row
  {
    if row <= maxRow {
      FillFromWellFormed(FillRow(g, answers, row), answers, row + 1, maxRow);
    }
  }

  // ---------------------------------------------------------------------------
  // The provenance line (_agregar_validacion)
  // ---------------------------------------------------------------------------

  /** The calendar date `datetime.now()` gives. */
  datatype Date = Date(day: int, month: int, year: int)

  /** A date of the current era, for which `%Y` has exactly four digits. */
  predicate ValidDate(d: Date) {
    1 <= d.day <= 31 && 1 <= d.month <= 12 && 1000 <= d.year <= 9999
  }

  /** `strftime("%d/%m/%Y")`. */
  function FormatDmy(d: Date): (s: string)
    requires ValidDate(d)
    ensures |s| == 10 && s[2] == '/' && s[5] == '/'
    ensures IsDigits(s[..2]) && IsDigits(s[3..5]) && IsDigits(s[6..])
    ensures ParseDigits(s[..2]) == d.day && ParseDigits(s[3..5]) == d.month && ParseDigits(s[6..]) == d.year
  {
    var dd, mm, yyyy := Pad2(d.day), Pad2(d.month), NatToString(d.year);
    Pad2RoundTrip(d.day);
    Pad2RoundTrip(d.month);
    ParseNatToString(d.year);
    FourDigits(d.year);
    var s := dd + "/" + mm + "/" + yyyy;
    assert s[..2] == dd && s[3..5] == mm && s[6..] == yyyy;
    s
  }

  lemma FourDigits(y: nat)
    requires 1000 <= y <= 9999
    ensures |NatToString(y)| == 4
  {
    var a := y / 10;
    var b := a / 10;
    var c := b / 10;
    assert 100 <= a <= 999 && 10 <= b <= 99 && 1 <= c <= 9;
    NatToStringStep(y);
    NatToStringStep(a);
    NatToStringStep(b);
  }

  lemma NatToStringStep(n: nat)
    requires n >= 10
    ensures |NatToString(n)| == |NatToString(n / 10)| + 1
  {
  }

  /** The seven spaces between the parts of the provenance line. */
  const Gap: string := "       "

  /** Python's f-string rendering of a session value; a present None renders as "None". */
  function Render(v: Option<string>): string {
    match v
    case Some(s) => s
    case None => "None"
  }

  /** Python's `session_data.get(key, default)`. */
  function SessionGet(session: map<string, Option<string>>, key: string, default: string): Option<string> {
    if key in session then session[key] else Some(default)
  }

  /** The technician named in the provenance line. */
  function Technician(session: map<string, Option<string>>): (t: string)
    ensures "tecnico" !in session ==> t == "Desconocido"
    ensures "tecnico" in session ==> t == Render(session["tecnico"])
  {
    Render(SessionGet(session, "tecnico", "Desconocido"))
  }

  function ValidationText(fecha: string, tecnico: string, validador: string): string {
    "Fecha: " + fecha + Gap + "Técnico: " + tecnico + Gap + "Revisado por: " + validador
  }

  /** The provenance line begins with the date and names the technician and the validator. */
  lemma ValidationTextParts(fecha: string, tecnico: string, validador: string)
    ensures var t := ValidationText(fecha, tecnico, validador);
      && t[..7 + |fecha|] == "Fecha: " + fecha
      && OccursAt(t, "Técnico: " + tecnico, 14 + |fecha|)
      && OccursAt(t, "Revisado por: " + validador, |t| - 14 - |validador|)
      && Contains(t, "Fecha:") && Contains(t, "Técnico: " + tecnico) && Contains(t, "Revisado por:")
  {
    var t := ValidationText(fecha, tecnico, validador);
    var a := "Técnico: " + tecnico;
    var b := "Revisado por: " + validador;
    assert t == ("Fecha: " + fecha + Gap) + a + (Gap + b);
    assert t[14 + |fecha|..14 + |fecha| + |a|] == a;
    assert t[|t| - |b|..] == b;
    assert OccursAt(t, "Fecha:", 0);
    assert OccursAt(t, a, 14 + |fecha|);
    assert t[|t| - |b|..|t| - |b| + 13] == "Revisado por:";
    assert OccursAt(t, "Revisado por:", |t| - |b|);
  }

  // ---------------------------------------------------------------------------
  // The file name (_generar_nombre_archivo)
  // ---------------------------------------------------------------------------

  /** Spaces turned into hyphens, as `.replace(" ", "-")` does. */
  function Hyphenated(s: string): string {
    ReplaceChar(s, ' ', '-')
  }

  /** The name before sanitisation, without its extension. */
  function NameStem(activo: string, config: Checklist, propietario: string, cargo: string): string {
    "Activo " + activo + " Checklist " + config.empresa + " " + config.tipo + " "
      + Hyphenated(propietario) + " " + Hyphenated(cargo)
  }

  /** The name before sanitisation. */
  function RawName(activo: string, config: Checklist, propietario: string, cargo: string): string {
    NameStem(activo, config, propietario, cargo) + ".xlsx"
  }

  /**
   * `_generar_nombre_archivo`: absent keys take their defaults; a present None
   * renders as "None" for the asset tag but makes `.replace` raise for the owner
   * and the role.
   */
  function GenerarNombreArchivo(config: Checklist, session: map<string, Option<string>>): Result<string, PyError> {
    var activo := SessionGet(session, "activo_fijo", "SinAF");
    var propietario := SessionGet(session, "propietario", "SinPropietario");
    var cargo := SessionGet(session, "cargo", "SinCargo");
    if propietario.None? || cargo.None? then
      Err(AttributeError("'NoneType' object has no attribute 'replace'"))
    else
      Ok(Helpers.Sanitized(RawName(Render(activo), config, propietario.value, cargo.value)))
  }

  /** Generating the name fails exactly on a None owner or role. */
  lemma NombreArchivoFails(config: Checklist, session: map<string, Option<string>>)
    ensures var propietario := SessionGet(session, "propietario", "SinPropietario");
      var cargo := SessionGet(session, "cargo", "SinCargo");
      GenerarNombreArchivo(config, session).Err? <==> propietario.None? || cargo.None?
  {
  }

  /** The only error generating the name raises is the AttributeError of `.replace`. */
  lemma NombreArchivoError(config: Checklist, session: map<string, Option<string>>)
    ensures GenerarNombreArchivo(config, session).Err? ==> GenerarNombreArchivo(config, session).error.AttributeError?
  {
  }

  /** A generated name has no reserved character and ends in ".xlsx". */
  lemma NombreArchivoClean(config: Checklist, session: map<string, Option<string>>)
    ensures GenerarNombreArchivo(config, session).Ok? ==>
      var r := GenerarNombreArchivo(config, session).value;
      Helpers.Clean(r) && |r| >= 5 && r[|r| - 5..] == ".xlsx"
  {
    var propietario := SessionGet(session, "propietario", "SinPropietario");
    var cargo := SessionGet(session, "cargo", "SinCargo");
    if propietario.Some? && cargo.Some? {
      var stem := NameStem(Render(SessionGet(session, "activo_fijo", "SinAF")), config, propietario.value, cargo.value);
      NombreArchivoValue(config, session);
      XlsxName(stem);
    }
  }

  /** A generated name is the stem of the name, with its extension, sanitised as a whole. */
  lemma NombreArchivoValue(config: Checklist, session: map<string, Option<string>>)
    ensures GenerarNombreArchivo(config, session).Ok? ==>
      GenerarNombreArchivo(config, session).value
        == Helpers.Sanitized(NameStem(Render(SessionGet(session, "activo_fijo", "SinAF")), config,
                                      SessionGet(session, "propietario", "SinPropietario").value,
                                      SessionGet(session, "cargo", "SinCargo").value) + ".xlsx")
  {
  }

  /** A sanitised name built with the extension is clean and still ends in it. */
  lemma XlsxName(front: string)
    ensures var r := Helpers.Sanitized(front + ".xlsx");
      Helpers.Clean(r) && |r| >= 5 && r[|r| - 5..] == ".xlsx"
  {
    SanitizedXlsx(front);
    var r := Helpers.Sanitized(front) + ".xlsx";
    assert r[|r| - 5..] == ".xlsx" by {
      assert |r| - 5 == |Helpers.Sanitized(front)|;
    }
  }

  /** The extension survives sanitisation. */
  lemma SanitizedXlsx(front: string)
    ensures Helpers.Sanitized(front + ".xlsx") == Helpers.Sanitized(front) + ".xlsx"
  {
    Helpers.CleanOfChars(".xlsx");
    Helpers.SanitizedCleanSuffix(front, ".xlsx");
  }

  /**
   * Each part of a generated name is sanitised in place: the fixed
   * words and separating spaces survive, and only the owner's and the role's
   * spaces become hyphens.
   */
  lemma NombreArchivoShape(config: Checklist, session: map<string, Option<string>>)
    ensures GenerarNombreArchivo(config, session).Ok? ==>
      GenerarNombreArchivo(config, session).value
        == "Activo " + Helpers.Sanitized(Render(SessionGet(session, "activo_fijo", "SinAF")))
           + " Checklist " + Helpers.Sanitized(config.empresa) + " " + Helpers.Sanitized(config.tipo)
           + " " + Helpers.Sanitized(Hyphenated(SessionGet(session, "propietario", "SinPropietario").value))
           + " " + Helpers.Sanitized(Hyphenated(SessionGet(session, "cargo", "SinCargo").value)) + ".xlsx"
  {
    var propietario := SessionGet(session, "propietario", "SinPropietario");
    var cargo := SessionGet(session, "cargo", "SinCargo");
    if propietario.Some? && cargo.Some? {
      var a := Render(SessionGet(session, "activo_fijo", "SinAF"));
      var p, c := Hyphenated(propietario.value), Hyphenated(cargo.value);
      assert GenerarNombreArchivo(config, session) == Ok(Helpers.Sanitized(RawName(a, config, propietario.value, cargo.value)));
      SanitizedName(a, config.empresa, config.tipo, p, c);
    }
  }

  /** With none of the three keys in the session, the name is built from the defaults. */
  lemma NombreArchivoDefaults(config: Checklist, session: map<string, Option<string>>)
    requires "activo_fijo" !in session && "propietario" !in session && "cargo" !in session
    ensures GenerarNombreArchivo(config, session)
      == Ok("Activo " + "SinAF" + " Checklist " + Helpers.Sanitized(config.empresa) + " " + Helpers.Sanitized(config.tipo)
            + " " + "SinPropietario" + " " + "SinCargo" + ".xlsx")
  {
    NombreArchivoPlain(config, session, "SinAF", "SinPropietario", "SinCargo");
  }

  /** When the three values are plain words, they appear in the name as they are. */
  lemma NombreArchivoPlain(config: Checklist, session: map<string, Option<string>>, a: string, p: string, c: string)
    requires SessionGet(session, "activo_fijo", "SinAF") == Some(a)
    requires SessionGet(session, "propietario", "SinPropietario") == Some(p)
    requires SessionGet(session, "cargo", "SinCargo") == Some(c)
    requires forall ch :: ch in a + p + c ==> ch != ' ' && !Helpers.IsReserved(ch)
    ensures GenerarNombreArchivo(config, session)
      == Ok("Activo " + a + " Checklist " + Helpers.Sanitized(config.empresa) + " " + Helpers.Sanitized(config.tipo)
            + " " + p + " " + c + ".xlsx")
  {
    NombreArchivoShape(config, session);
    assert forall ch :: ch in a || ch in p || ch in c ==> ch in a + p + c;
    PlainWord(a);
    PlainWord(p);
    PlainWord(c);
  }

  /** A word with no space and no reserved character goes through the name pipeline unchanged. */
  lemma PlainWord(w: string)
    requires forall ch :: ch in w ==> ch != ' ' && !Helpers.IsReserved(ch)
    ensures Helpers.Sanitized(w) == w && Helpers.Sanitized(Hyphenated(w)) == w
  {
    ReplaceCharAbsent(w, ' ', '-');
    Helpers.CleanOfChars(w);
    Helpers.SanitizedIdentity(w);
  }

  /** Sanitising the name part by part: the fixed words and separators have no reserved character. */
  lemma SanitizedName(a: string, e: string, t: string, p: string, c: string)
    ensures Helpers.Sanitized("Activo " + a + " Checklist " + e + " " + t + " " + p + " " + c + ".xlsx")
      == "Activo " + Helpers.Sanitized(a) + " Checklist " + Helpers.Sanitized(e) + " " + Helpers.Sanitized(t)
         + " " + Helpers.Sanitized(p) + " " + Helpers.Sanitized(c) + ".xlsx"
  {
    FixedWordsClean();
    var s1 := "Activo " + a;
    assert Helpers.Sanitized(s1) == "Activo " + Helpers.Sanitized(a) by { Helpers.SanitizedCleanPrefix("Activo ", a); }
    var s2 := s1 + " Checklist ";
    assert Helpers.Sanitized(s2) == Helpers.Sanitized(s1) + " Checklist " by { Helpers.SanitizedCleanSuffix(s1, " Checklist "); }
    var s3 := s2 + e;
    assert Helpers.Sanitized(s3) == Helpers.Sanitized(s2) + Helpers.Sanitized(e) by { Helpers.SanitizedConcat(s2, e); }
    var s4 := s3 + " ";
    assert Helpers.Sanitized(s4) == Helpers.Sanitized(s3) + " " by { Helpers.SanitizedCleanSuffix(s3, " "); }
    var s5 := s4 + t;
    assert Helpers.Sanitized(s5) == Helpers.Sanitized(s4) + Helpers.Sanitized(t) by { Helpers.SanitizedConcat(s4, t); }
    var s6 := s5 + " ";
    assert Helpers.Sanitized(s6) == Helpers.Sanitized(s5) + " " by { Helpers.SanitizedCleanSuffix(s5, " "); }
    var s7 := s6 + p;
    assert Helpers.Sanitized(s7) == Helpers.Sanitized(s6) + Helpers.Sanitized(p) by { Helpers.SanitizedConcat(s6, p); }
    var s8 := s7 + " ";
    assert Helpers.Sanitized(s8) == Helpers.Sanitized(s7) + " " by { Helpers.SanitizedCleanSuffix(s7, " "); }
    var s9 := s8 + c;
    assert Helpers.Sanitized(s9) == Helpers.Sanitized(s8) + Helpers.Sanitized(c) by { Helpers.SanitizedConcat(s8, c); }
    var s10 := s9 + ".xlsx";
    assert Helpers.Sanitized(s10) == Helpers.Sanitized(s9) + ".xlsx" by { Helpers.SanitizedCleanSuffix(s9, ".xlsx"); }
  }

  /** The fixed words and separators of the name have no reserved character. */
  lemma FixedWordsClean()
    ensures Helpers.Clean("Activo ") && Helpers.Clean(" Checklist ") && Helpers.Clean(" ") && Helpers.Clean(".xlsx")
  {
    Helpers.CleanOfChars("Activo ");
    Helpers.CleanOfChars(" Checklist ");
    Helpers.CleanOfChars(" ");
    Helpers.CleanOfChars(".xlsx");
  }

  /** Only the spaces of the owner's name become hyphens. */
  lemma HyphenatedExample(s: string)
    requires s == "Pepe Pérez"
    ensures Hyphenated(s) == "Pepe-Pérez"
  {
    var a, b := "Pepe", "Pérez";
    assert s == a + " " + b;
    ReplaceCharConcat(a + " ", b, ' ', '-');
    ReplaceCharConcat(a, " ", ' ', '-');
    ReplaceCharAbsent(a, ' ', '-');
    ReplaceCharAbsent(b, ' ', '-');
    assert ReplaceChar(" ", ' ', '-') == "-";
  }

  /** The name the tests expect for a complete identity with a space in the owner's name. */
  lemma NombreArchivoExample(config: Checklist, session: map<string, Option<string>>)
    requires config == Checklist("Acme", "PC", "plantilla_pc.xlsx", [])
    requires session == map["activo_fijo" := Some("35456"), "propietario" := Some("Pepe Pérez"), "cargo" := Some("Developer")]
    ensures GenerarNombreArchivo(config, session)
      == Ok("Activo " + "35456" + " Checklist " + "Acme" + " " + "PC" + " " + "Pepe-Pérez" + " " + "Developer" + ".xlsx")
  {
    ExampleSession(session);
    var a := Render(SessionGet(session, "activo_fijo", "SinAF"));
    var owner := SessionGet(session, "propietario", "SinPropietario").value;
    var role := SessionGet(session, "cargo", "SinCargo").value;
    assert GenerarNombreArchivo(config, session) == Ok(Helpers.Sanitized(RawName(a, config, owner, role)));
    ExampleName(config, a, owner, role);
  }

  lemma ExampleSession(session: map<string, Option<string>>)
    requires session == map["activo_fijo" := Some("35456"), "propietario" := Some("Pepe Pérez"), "cargo" := Some("Developer")]
    ensures SessionGet(session, "activo_fijo", "SinAF") == Some("35456")
    ensures SessionGet(session, "propietario", "SinPropietario") == Some("Pepe Pérez")
    ensures SessionGet(session, "cargo", "SinCargo") == Some("Developer")
  {
  }

  lemma ExampleName(config: Checklist, a: string, owner: string, role: string)
    requires config == Checklist("Acme", "PC", "plantilla_pc.xlsx", [])
    requires a == "35456" && owner == "Pepe Pérez" && role == "Developer"
    ensures Helpers.Sanitized(RawName(a, config, owner, role))
      == "Activo " + "35456" + " Checklist " + "Acme" + " " + "PC" + " " + "Pepe-Pérez" + " " + "Developer" + ".xlsx"
  {
    var p, c := Hyphenated(owner), Hyphenated(role);
    assert p == "Pepe-Pérez" by { HyphenatedExample(owner); }
    assert c == "Developer" by { ReplaceCharAbsent(role, ' ', '-'); }
    ExampleClean(a, p, c, config.empresa, config.tipo);
    SanitizedName(a, config.empresa, config.tipo, p, c);
  }

  lemma ExampleClean(a: string, p: string, c: string, e: string, t: string)
    requires a == "35456" && p == "Pepe-Pérez" && c == "Developer" && e == "Acme" && t == "PC"
    ensures Helpers.Sanitized(a) == a && Helpers.Sanitized(p) == p && Helpers.Sanitized(c) == c
    ensures Helpers.Sanitized(e) == e && Helpers.Sanitized(t) == t
  {
    Helpers.CleanOfChars(a);
    Helpers.CleanOfChars(p);
    Helpers.CleanOfChars(c);
    Helpers.CleanOfChars(e);
    Helpers.CleanOfChars(t);
    Helpers.SanitizedIdentity(a);
    Helpers.SanitizedIdentity(p);
    Helpers.SanitizedIdentity(c);
    Helpers.SanitizedIdentity(e);
    Helpers.SanitizedIdentity(t);
  }

  // ---------------------------------------------------------------------------
  // The worksheet, updated in place
  // ---------------------------------------------------------------------------

  /** The active sheet of a loaded workbook. */
  class Sheet {
    var cells: Grid
    var maxRow: int

    ghost predicate Valid()
      reads this
    {
      WellFormed(cells, maxRow)
    }

    function At(row: int, col: int): Cell
      reads this
    {
      CellAt(cells, row, col)
    }

    /** `load_workbook(path).active`. */
    constructor Load(d: SheetData)
      requires WellFormed(d.cells, d.maxRow)
      ensures Valid() && cells == d.cells && maxRow == d.maxRow
    {
      cells := d.cells;
      maxRow := d.maxRow;
    }

    /**
     * `_llenar_respuestas`: visits rows 1..max_row, writes the answer of every
     * question slot whose number is answered into column 3, and returns the last
     * row visited.
     */
    method LlenarRespuestas(respuestas: map<int, string>) returns (finalLine: int)
      requires Valid()
      modifies this
      ensures Valid() && maxRow == old(maxRow) && finalLine == maxRow
      ensures cells == FillFrom(old(cells), respuestas, 1, maxRow)
      ensures forall r, c ::
        At(r, c) == (if c == 3 && 1 <= r <= maxRow && Answered(old(cells), respuestas, r)
            then Str(AnswerFor(old(cells), respuestas, r)) else old(At(r, c)))
    {
      finalLine := 0;
      var row := 1;
      while row <= maxRow
        invariant 1 <= row <= maxRow + 1 && maxRow == old(maxRow)
        invariant WellFormed(cells, maxRow)
        invariant FillFrom(cells, respuestas, row, maxRow) == FillFrom(old(cells), respuestas, 1, maxRow)
        invariant row > 1 ==> finalLine == row - 1
        decreases maxRow - row
      {
        var celdaId := At(row, 1);
        if Truthy(celdaId) && IsDigits(StrForm(celdaId)) {
          var preguntaId := ParseDigits(StrForm(celdaId));
          if preguntaId in respuestas {
            cells := cells[(row, 3) := Str(respuestas[preguntaId])];
          }
        }
        finalLine := row;
        row := row + 1;
      }
      forall r, c
        ensures At(r, c) == (if c == 3 && 1 <= r <= maxRow && Answered(old(cells), respuestas, r)
                             then Str(AnswerFor(old(cells), respuestas, r)) else old(At(r, c)))
      {
        FillFromCell(old(cells), respuestas, 1, maxRow, r, c);
      }
    }

    /**
     * `_agregar_validacion`: writes the provenance line into column 1 of
     * `finalLine`, the only cell it changes; a row past the end extends the sheet.
     */
    method AgregarValidacion(finalLine: int, session: map<string, Option<string>>, today: Date, validador: string)
      requires Valid() && finalLine >= 1 && ValidDate(today)
      modifies this
      ensures Valid()
      ensures cells == old(cells)[(finalLine, 1) := Str(ValidationText(FormatDmy(today), Technician(session), validador))]
      ensures maxRow == if finalLine > old(maxRow) then finalLine else old(maxRow)
    {
      var fecha := FormatDmy(today);
      var tecnico := Technician(session);
      var texto := ValidationText(fecha, tecnico, validador);
      cells := cells[(finalLine, 1) := Str(texto)];
      if finalLine > maxRow {
        maxRow := finalLine;
      }
    }
  }

  // ---------------------------------------------------------------------------
  // The whole pipeline (generar_excel)
  // ---------------------------------------------------------------------------

  /** The saved workbook: its path, its file name and the sheet written. */
  datatype Artifact = Artifact(path: string, filename: string, sheet: SheetData)

  /** The template sheet after filling and stamping the provenance line on its last row. */
  function Stamped(t: SheetData, respuestas: map<int, string>, line: string): SheetData {
    SheetData(FillFrom(t.cells, respuestas, 1, t.maxRow)[(t.maxRow, 1) := Str(line)], t.maxRow)
  }

  function TemplatePath(settings: Settings, config: Checklist): string {
    Join(settings.templatesDir, config.plantilla)
  }

  /**
   * What `generar_excel` produces: ValueError for an unknown type, then
   * FileNotFoundError for a missing template, then the filled and stamped sheet
   * under the generated name, unless generating the name raises.
   * `templates` maps each existing template path to its active sheet.
   */
  function Generated(catalog: Catalog, templates: map<string, SheetData>, settings: Settings, tipo: string,
                     respuestas: map<int, string>, session: map<string, Option<string>>, today: Date): Result<Artifact, PyError>
    requires ValidDate(today)
  {
    if tipo !in catalog then Err(ValueError("Checklist tipo '" + tipo + "' no encontrado"))
    else
      var config := catalog[tipo];
      var path := TemplatePath(settings, config);
      if path !in templates then Err(FileNotFoundError("Plantilla no encontrada: " + path))
      else
        var line := ValidationText(FormatDmy(today), Technician(session), settings.defaultValidator);
        match GenerarNombreArchivo(config, session)
        case Err(e) => Err(e)
        case Ok(name) => Ok(Artifact(Join(settings.outputDir, name), name, Stamped(templates[path], respuestas, line)))
  }

  /** `generar_excel`, run on a fresh sheet loaded from the template. */
  method GenerarExcel(catalog: Catalog, templates: map<string, SheetData>, settings: Settings, tipo: string,
                      respuestas: map<int, string>, session: map<string, Option<string>>, today: Date)
    returns (r: Result<Artifact, PyError>)
    requires forall p :: p in templates ==> WellFormed(templates[p].cells, templates[p].maxRow)
    requires ValidDate(today)
    ensures r == Generated(catalog, templates, settings, tipo, respuestas, session, today)
  {
    if tipo !in catalog {
      return Err(ValueError("Checklist tipo '" + tipo + "' no encontrado"));
    }
    var config := catalog[tipo];
    var plantillaPath := Join(settings.templatesDir, config.plantilla);
    if plantillaPath !in templates {
      return Err(FileNotFoundError("Plantilla no encontrada: " + plantillaPath));
    }
    var ws := new Sheet.Load(templates[plantillaPath]);
    var finalLine := ws.LlenarRespuestas(respuestas);
    ws.AgregarValidacion(finalLine, session, today, settings.defaultValidator);
    var nombre := GenerarNombreArchivo(config, session);
    if nombre.Err? {
      return Err(nombre.error);
    }
    var outputPath := Join(settings.outputDir, nombre.value);
    return Ok(Artifact(outputPath, nombre.value, SheetData(ws.cells, ws.maxRow)));
  }

  /**
   * What the stamped sheet holds: the provenance line in column 1 of the last
   * row, the answer in column 3 of every answered question slot, and the
   * template's cell everywhere else.
   */
  lemma StampedCell(t: SheetData, respuestas: map<int, string>, line: string, r: int, c: int)
    ensures Stamped(t, respuestas, line).maxRow == t.maxRow
    ensures CellAt(Stamped(t, respuestas, line).cells, r, c)
      == if r == t.maxRow && c == 1 then Str(line)
         else if c == 3 && 1 <= r <= t.maxRow && Answered(t.cells, respuestas, r) then Str(AnswerFor(t.cells, respuestas, r))
         else CellAt(t.cells, r, c)
  {
    FillFromCell(t.cells, respuestas, 1, t.maxRow, r, c);
  }

  /**
   * A generated workbook is the stamped template, saved under the generated
   * name in the output directory, with today's provenance line.
   */
  lemma GeneratedContents(catalog: Catalog, templates: map<string, SheetData>, settings: Settings, tipo: string,
                          respuestas: map<int, string>, session: map<string, Option<string>>, today: Date)
    requires ValidDate(today)
    requires Generated(catalog, templates, settings, tipo, respuestas, session, today).Ok?
    ensures tipo in catalog && TemplatePath(settings, catalog[tipo]) in templates
    ensures var a := Generated(catalog, templates, settings, tipo, respuestas, session, today).value;
      && GenerarNombreArchivo(catalog[tipo], session) == Ok(a.filename)
      && a.path == Join(settings.outputDir, a.filename)
      && a.sheet == Stamped(templates[TemplatePath(settings, catalog[tipo])], respuestas,
                            ValidationText(FormatDmy(today), Technician(session), settings.defaultValidator))
  {
  }

  /** `generar_excel` fails before loading anything exactly when `validar_plantilla` says no. */
  lemma GeneratedAgreesWithValidarPlantilla(catalog: Catalog, templates: map<string, SheetData>, settings: Settings, tipo: string,
                                            respuestas: map<int, string>, session: map<string, Option<string>>, today: Date)
    requires ValidDate(today)
    ensures var g := Generated(catalog, templates, settings, tipo, respuestas, session, today);
      (g.Err? && (g.error.ValueError? || g.error.FileNotFoundError?))
        <==> !FileService.ValidarPlantilla(catalog, settings.templatesDir, templates.Keys, tipo)
  {
    if tipo in catalog {
      NombreArchivoError(catalog[tipo], session);
    }
  }
}
