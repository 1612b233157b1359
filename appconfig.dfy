/**
 * What the server side reads from its environment: the checklist catalog, the
 * configured directories and validator, and POSIX path joining.
 * The catalog's own module (`app/models/checklist_data`) is not part of this
 * model: it is represented by a map from checklist type to its entry.
 */
module AppConfig {

  /** One catalog entry: organisation, display type, template file name, questions. */
  datatype Checklist = Checklist(empresa: string, tipo: string, plantilla: string, preguntas: seq<string>)

  /** `get_checklist(tipo)` is `catalog[tipo]`; `checklist_exists(tipo)` is `tipo in catalog`. */
  type Catalog = map<string, Checklist>

  /** The configuration values the core reads from `current_app.config`. */
  datatype Settings = Settings(templatesDir: string, outputDir: string, defaultValidator: string)

  /** Python's `os.path.join(a, b)` on POSIX. */
  function Join(a: string, b: string): (p: string)
    ensures |p| >= |b| && p[|p| - |b|..] == b
    ensures |b| > 0 && b[0] == '/' ==> p == b
    ensures !(|b| > 0 && b[0] == '/') ==> |p| >= |a| && p[..|a|] == a
  {
    if |b| > 0 && b[0] == '/' then b
    else if a == "" || a[|a| - 1] == '/' then a + b
    else a + "/" + b
  }
}
