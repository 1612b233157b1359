/**
 * The checklist blueprint: the initial data form, the interactive checklist
 * page and the save action that generates the workbook. A request's form and
 * query string are maps from field name to value; the Flask session is an
 * object whose dictionary the form route updates in place.
 */
module ChecklistRoutes {
  import opened Wrappers
  import opened Text
  import opened AppConfig
  import opened Helpers
  import opened ExcelService

  /** What a route answers with. */
  datatype Response =
    | RedirectIndex
      /** `session_required` sent the user to the form of `tipo`, flashing `warning`. */
    | RedirectForm(tipo: string, warning: string)
      /** A redirect to the checklist page with its optional query parameters. */
    | RedirectChecklist(tipo: string, mensaje: Option<string>, archivo: Option<string>)
    | RenderForm(checklist: Checklist, tipo: string)
    | RenderChecklist(checklist: Checklist, tipo: string, preguntas: seq<(int, string)>,
                      mensaje: Option<string>, archivo: Option<string>)

  /** The user's Flask session. */
  class Session {
    var data: map<string, string>

    constructor (data: map<string, string>)
      ensures this.data == data
    {
      this.data := data;
    }
  }

  /** `form.get(key, default)`. */
  function FormGet(form: map<string, string>, key: string, default: string): string {
    if key in form then form[key] else default
  }

  /** `args.get(key)`: the value, or None. */
  function ArgGet(args: map<string, string>, key: string): Option<string> {
    if key in args then Some(args[key]) else None
  }

  // ---------------------------------------------------------------------------
  // formulario
  // ---------------------------------------------------------------------------

  /** The session after the form is posted: the identity fields stripped, and the checklist type. */
  function Stored(data: map<string, string>, form: map<string, string>, tipo: string): map<string, string> {
    data["activo_fijo" := Strip(FormGet(form, "activo_fijo", ""))]
        ["propietario" := Strip(FormGet(form, "propietario", ""))]
        ["cargo" := Strip(FormGet(form, "cargo", ""))]
        ["tecnico" := Strip(FormGet(form, "tecnico", ""))]
        ["tipo_checklist" := tipo]
  }

  /**
   * The stored session holds the four identity fields, stripped and empty when
   * missing, and the checklist type; every other key is kept, and no other key
   * is added.
   */
  lemma {:induction false} StoredSpec(data: map<string, string>, form: map<string, string>, tipo: string)
    ensures IdentityComplete(Stored(data, form, tipo))
    ensures forall k :: k in RequiredKeys ==> Stored(data, form, tipo)[k] == Strip(FormGet(form, k, ""))
    ensures "tipo_checklist" in Stored(data, form, tipo) && Stored(data, form, tipo)["tipo_checklist"] == tipo
    ensures forall k :: k in data && k !in RequiredKeys && k != "tipo_checklist" ==>
              k in Stored(data, form, tipo) && Stored(data, form, tipo)[k] == data[k]
    ensures forall k :: k in Stored(data, form, tipo) <==> k in data || k in RequiredKeys || k == "tipo_checklist"
  {
    var r := Stored(data, form, tipo);
    assert "activo_fijo"[0] != "propietario"[0];
    assert "tipo_checklist" !in RequiredKeys by {
      assert |"tipo_checklist"| == 14;
    }
    forall k | k in RequiredKeys
      ensures k in r && r[k] == Strip(FormGet(form, k, ""))
    {
    }
  }

  /**
   * `formulario(tipo)`: an unknown type goes back to the index; a POST stores
   * the identity in the session and moves on to the checklist; a GET renders
   * the form. Only a POST for a known type changes the session.
   */
  method Formulario(catalog: Catalog, tipo: string, isPost: bool, form: map<string, string>, s: Session)
    returns (resp: Response)
    modifies s
    ensures tipo !in catalog ==> resp == RedirectIndex
    ensures tipo in catalog && isPost ==> resp == RedirectChecklist(tipo, None, None)
    ensures tipo in catalog && !isPost ==> resp == RenderForm(catalog[tipo], tipo)
    ensures s.data == if tipo in catalog && isPost then Stored(old(s.data), form, tipo) else old(s.data)
  {
    if tipo !in catalog {
      return RedirectIndex;
    }
    if isPost {
      s.data := s.data["activo_fijo" := Strip(FormGet(form, "activo_fijo", ""))];
      s.data := s.data["propietario" := Strip(FormGet(form, "propietario", ""))];
      s.data := s.data["cargo" := Strip(FormGet(form, "cargo", ""))];
      s.data := s.data["tecnico" := Strip(FormGet(form, "tecnico", ""))];
      s.data := s.data["tipo_checklist" := tipo];
      return RedirectChecklist(tipo, None, None);
    }
    return RenderForm(catalog[tipo], tipo);
  }

  // ---------------------------------------------------------------------------
  // mostrar_checklist
  // ---------------------------------------------------------------------------

  /** `list(enumerate(preguntas, 1))`. */
  function Enumerated(preguntas: seq<string>): (r: seq<(int, string)>)
    ensures |r| == |preguntas|
    ensures forall i :: 0 <= i < |r| ==> r[i] == (i + 1, preguntas[i])
  {
    if preguntas == [] then []
    else
      var rest := Enumerated(preguntas[..|preguntas| - 1]);
      rest + [(|preguntas|, preguntas[|preguntas| - 1])]
  }

  /**
   * `mostrar_checklist(tipo)` behind `session_required`: the session gate
   * first, then the unknown-type guard, then the page with the numbered
   * questions and the optional message and file name of the query string.
   */
  method MostrarChecklist(catalog: Catalog, tipo: string, args: map<string, string>, s: Session)
    returns (resp: Response)
    ensures !IdentityComplete(s.data) ==> resp == RedirectForm(tipo, FormWarning)
    ensures IdentityComplete(s.data) && tipo !in catalog ==> resp == RedirectIndex
    ensures IdentityComplete(s.data) && tipo in catalog ==>
      && resp.RenderChecklist?
      && resp == RenderChecklist(catalog[tipo], tipo, resp.preguntas, ArgGet(args, "mensaje"), ArgGet(args, "archivo"))
      && |resp.preguntas| == |catalog[tipo].preguntas|
      && forall i :: 0 <= i < |resp.preguntas| ==> resp.preguntas[i] == (i + 1, catalog[tipo].preguntas[i])
  {
    var gate := SessionRequired(s.data, map["tipo" := tipo]);
    if gate.RedirectToForm? {
      return RedirectForm(gate.tipo, gate.warning);
    }
    if tipo !in catalog {
      return RedirectIndex;
    }
    var config := catalog[tipo];
    var mensaje := ArgGet(args, "mensaje");
    var archivo := ArgGet(args, "archivo");
    return RenderChecklist(config, tipo, Enumerated(config.preguntas), mensaje, archivo);
  }

  // ---------------------------------------------------------------------------
  // guardar_checklist
  // ---------------------------------------------------------------------------

  /** The form field of question `k`: `pregunta_<k>`. */
  function QuestionKey(k: int): string {
    "pregunta_" + IntToString(k)
  }

  /** The answers of questions 1..n, "N/A" for a question the form does not carry. */
  function Answers(n: nat, form: map<string, string>): map<int, string> {
    map k | 1 <= k <= n :: FormGet(form, QuestionKey(k), "N/A")
  }

  /** The answer loop of `guardar_checklist`. */
  method CollectAnswers(n: nat, form: map<string, string>) returns (respuestas: map<int, string>)
    ensures respuestas == Answers(n, form)
    ensures forall k :: k in respuestas <==> 1 <= k <= n
  {
    respuestas := map[];
    for i := 0 to n
      invariant respuestas == Answers(i, form)
    {
      respuestas := respuestas[i + 1 := FormGet(form, QuestionKey(i + 1), "N/A")];
      assert respuestas == Answers(i + 1, form);
    }
  }

  /** The four identity values as `session.get` returns them. */
  function SessionData(data: map<string, string>): (r: map<string, Option<string>>)
    ensures r.Keys == set k | k in RequiredKeys
    ensures forall k :: k in RequiredKeys ==> r[k] == ArgGet(data, k)
  {
    map["activo_fijo" := ArgGet(data, "activo_fijo"), "propietario" := ArgGet(data, "propietario"),
        "cargo" := ArgGet(data, "cargo"), "tecnico" := ArgGet(data, "tecnico")]
  }

  /** The `mensaje` flag of a successful save: whether the copy to the share succeeded. */
  function StatusFlag(copied: bool): string {
    if copied then "1" else "0"
  }

  /**
   * What `guardar_checklist` answers: the session gate, the unknown-type guard,
   * then a redirect carrying the copy flag and the file name, or "error" when
   * generating the workbook raises. `copied` is what the copy to the network
   * share returned.
   */
  function Guardar(catalog: Catalog, templates: map<string, SheetData>, settings: Settings, tipo: string,
                   form: map<string, string>, data: map<string, string>, today: Date, copied: bool): Response
    requires ValidDate(today)
  {
    if !IdentityComplete(data) then RedirectForm(tipo, FormWarning)
    else if tipo !in catalog then RedirectIndex
    else
      var respuestas := Answers(|catalog[tipo].preguntas|, form);
      match Generated(catalog, templates, settings, tipo, respuestas, SessionData(data), today)
      case Err(_) => RedirectChecklist(tipo, Some("error"), None)
      case Ok(a) => RedirectChecklist(tipo, Some(StatusFlag(copied)), Some(a.filename))
  }

  /**
   * `guardar_checklist(tipo)` behind `session_required`; `saved` is the workbook
   * written to the output directory, if any.
   */
  method GuardarChecklist(catalog: Catalog, templates: map<string, SheetData>, settings: Settings, tipo: string,
                          form: map<string, string>, s: Session, today: Date, copied: bool)
    returns (resp: Response, saved: Option<Artifact>)
    requires forall p :: p in templates ==> WellFormed(templates[p].cells, templates[p].maxRow)
    requires ValidDate(today)
    ensures resp == Guardar(catalog, templates, settings, tipo, form, s.data, today, copied)
    ensures saved.Some? <==> IdentityComplete(s.data) && tipo in catalog
                             && Generated(catalog, templates, settings, tipo, Answers(|catalog[tipo].preguntas|, form),
                                          SessionData(s.data), today).Ok?
    ensures saved.Some? ==> Generated(catalog, templates, settings, tipo, Answers(|catalog[tipo].preguntas|, form),
                                      SessionData(s.data), today) == Ok(saved.value)
  {
    var gate := SessionRequired(s.data, map["tipo" := tipo]);
    if gate.RedirectToForm? {
      return RedirectForm(gate.tipo, gate.warning), None;
    }
    if tipo !in catalog {
      return RedirectIndex, None;
    }
    var config := catalog[tipo];
    var respuestas := CollectAnswers(|config.preguntas|, form);
    var sessionData := SessionData(s.data);
    var r := GenerarExcel(catalog, templates, settings, tipo, respuestas, sessionData, today);
    if r.Err? {
      return RedirectChecklist(tipo, Some("error"), None), None;
    }
    var mensajeStatus := StatusFlag(copied);
    return RedirectChecklist(tipo, Some(mensajeStatus), Some(r.value.filename)), Some(r.value);
  }

  // ---------------------------------------------------------------------------
  // Properties of the routes
  // ---------------------------------------------------------------------------

  /**
   * With the session complete and the type known, saving fails in the model
   * exactly when the template is missing: the session only holds strings, so
   * generating the file name cannot raise, and loading the template and saving
   * the workbook are modelled as never failing.
   */
  lemma GuardarFailsOnlyWithoutTemplate(catalog: Catalog, templates: map<string, SheetData>, settings: Settings,
                                        tipo: string, form: map<string, string>, data: map<string, string>,
                                        today: Date, copied: bool)
    requires ValidDate(today)
    requires IdentityComplete(data) && tipo in catalog
    ensures var resp := Guardar(catalog, templates, settings, tipo, form, data, today, copied);
      && resp.RedirectChecklist? && resp.tipo == tipo
      && (resp.mensaje == Some("error") <==> TemplatePath(settings, catalog[tipo]) !in templates)
  {
    var sd := SessionData(data);
    NombreArchivoFails(catalog[tipo], sd);
    assert "propietario" in RequiredKeys && "cargo" in RequiredKeys;
  }

  /**
   * A successful save redirects with the copy flag and the generated name, and
   * that name has no reserved character and ends in ".xlsx".
   */
  lemma GuardarSuccessName(catalog: Catalog, templates: map<string, SheetData>, settings: Settings,
                           tipo: string, form: map<string, string>, data: map<string, string>,
                           today: Date, copied: bool)
    requires ValidDate(today)
    requires IdentityComplete(data) && tipo in catalog && TemplatePath(settings, catalog[tipo]) in templates
    ensures var resp := Guardar(catalog, templates, settings, tipo, form, data, today, copied);
      && resp.RedirectChecklist? && resp.mensaje == Some(StatusFlag(copied)) && resp.archivo.Some?
      && Ok(resp.archivo.value) == GenerarNombreArchivo(catalog[tipo], SessionData(data))
      && Clean(resp.archivo.value)
      && |resp.archivo.value| >= 5 && resp.archivo.value[|resp.archivo.value| - 5..] == ".xlsx"
  {
    GuardarSaved(catalog, templates, settings, tipo, form, data, today, copied);
    NombreArchivoClean(catalog[tipo], SessionData(data));
  }

  /** With the session complete, the type known and its template present, the save succeeds under the generated name. */
  lemma GuardarSaved(catalog: Catalog, templates: map<string, SheetData>, settings: Settings,
                     tipo: string, form: map<string, string>, data: map<string, string>,
                     today: Date, copied: bool)
    requires ValidDate(today)
    requires IdentityComplete(data) && tipo in catalog && TemplatePath(settings, catalog[tipo]) in templates
    ensures GenerarNombreArchivo(catalog[tipo], SessionData(data)).Ok?
    ensures Guardar(catalog, templates, settings, tipo, form, data, today, copied)
      == RedirectChecklist(tipo, Some(StatusFlag(copied)), Some(GenerarNombreArchivo(catalog[tipo], SessionData(data)).value))
  {
    var sd := SessionData(data);
    assert "propietario" in RequiredKeys && "cargo" in RequiredKeys;
    assert SessionGet(sd, "propietario", "SinPropietario").Some? && SessionGet(sd, "cargo", "SinCargo").Some?;
    NombreArchivoFails(catalog[tipo], sd);
  }

  /**
   * In the saved workbook, the answer column of every template row numbered
   * with a question 1..n of the checklist carries the form's answer, or "N/A"
   * when the form has none; the provenance line on the last row only replaces
   * its first column.
   */
  lemma SavedAnswers(catalog: Catalog, templates: map<string, SheetData>, settings: Settings, tipo: string,
                     form: map<string, string>, data: map<string, string>, today: Date, row: int)
    requires ValidDate(today) && tipo in catalog
    requires var g := Generated(catalog, templates, settings, tipo, Answers(|catalog[tipo].preguntas|, form),
                                SessionData(data), today);
      g.Ok?
    ensures TemplatePath(settings, catalog[tipo]) in templates
    ensures var t := templates[TemplatePath(settings, catalog[tipo])];
      var a := Generated(catalog, templates, settings, tipo, Answers(|catalog[tipo].preguntas|, form),
                         SessionData(data), today).value;
      var id := QuestionId(CellAt(t.cells, row, 1));
      1 <= row <= t.maxRow && id.Some? && 1 <= id.value <= |catalog[tipo].preguntas| ==>
        CellAt(a.sheet.cells, row, 3) == Str(FormGet(form, QuestionKey(id.value), "N/A"))
  {
    var n := |catalog[tipo].preguntas|;
    var respuestas := Answers(n, form);
    GeneratedContents(catalog, templates, settings, tipo, respuestas, SessionData(data), today);
    var t := templates[TemplatePath(settings, catalog[tipo])];
    var line := ValidationText(FormatDmy(today), Technician(SessionData(data)), settings.defaultValidator);
    StampedCell(t, respuestas, line, row, 3);
    var id := QuestionId(CellAt(t.cells, row, 1));
    if 1 <= row <= t.maxRow && id.Some? && 1 <= id.value <= n {
      AnswerOf(n, form, id.value);
    }
  }

  /** Question `k` of 1..n is answered with the form's field, or "N/A". */
  lemma AnswerOf(n: nat, form: map<string, string>, k: int)
    requires 1 <= k <= n
    ensures k in Answers(n, form) && Answers(n, form)[k] == FormGet(form, QuestionKey(k), "N/A")
  {
  }
}
