/**
 * The request helpers: the session presence gate, file-name sanitisation,
 * the client address and the standard response dictionary.
 */
module Helpers {
  import opened Wrappers
  import opened Text
  import opened Python

  // ---------------------------------------------------------------------------
  // session_required
  // ---------------------------------------------------------------------------

  /** The identity fields the initial form stores, which every checklist page needs. */
  const RequiredKeys: seq<string> := ["activo_fijo", "propietario", "cargo", "tecnico"]

  const FormWarning: string := "Por favor, completa el formulario de datos iniciales"

  /** What the decorator does with a request: run the view, or send the user to the form. */
  datatype Gate =
    | Proceed
    | RedirectToForm(tipo: string, warning: string)

  /** Every required key is present; its value, even an empty string, does not matter. */
  predicate IdentityComplete<V>(session: map<string, V>) {
    forall k :: k in RequiredKeys ==> k in session
  }

  /**
   * `session_required`: checks the required keys in order and, at the first one
   * missing, redirects to the form of the route's `tipo` (or of "pc").
   */
  method SessionRequired<V>(session: map<string, V>, kwargs: map<string, string>) returns (g: Gate)
    ensures g == Proceed <==> IdentityComplete(session)
    ensures g != Proceed ==> g == RedirectToForm(if "tipo" in kwargs then kwargs["tipo"] else "pc", FormWarning)
  {
    for i := 0 to |RequiredKeys|
      invariant forall j :: 0 <= j < i ==> RequiredKeys[j] in session
    {
      if RequiredKeys[i] !in session {
        var tipo := if "tipo" in kwargs then kwargs["tipo"] else "pc";
        return RedirectToForm(tipo, FormWarning);
      }
    }
    return Proceed;
  }

  // ---------------------------------------------------------------------------
  // sanitize_filename
  // ---------------------------------------------------------------------------

  /** The characters a file name may not contain: \ / : * ? " < > | */
  const Reserved: string := "\\/:*?\"<>|"

  predicate IsReserved(c: char) {
    c == '\\' || c == '/' || c == ':' || c == '*' || c == '?' || c == '"' || c == '<' || c == '>' || c == '|'
  }

  /** `s` has no reserved character. */
  predicate Clean(s: string) {
    forall i :: 0 <= i < |s| ==> !IsReserved(s[i])
  }

  /** A string none of whose characters is reserved is clean. */
  lemma CleanOfChars(s: string)
    requires forall c :: c in s ==> !IsReserved(c)
    ensures Clean(s)
  {
    assert forall i :: 0 <= i < |s| ==> s[i] in s;
  }

  /** `s` after `s.replace(c, "_")` for each character `c` of `cs`, in order. */
  function ReplaceEach(s: string, cs: string): (r: string)
    ensures |r| == |s|
    ensures forall i :: 0 <= i < |s| ==> r[i] == if s[i] in cs then '_' else s[i]
    decreases |cs|
  {
    if cs == [] then s
    else
      var t := ReplaceChar(s, cs[0], '_');
      var r := ReplaceEach(t, cs[1..]);
      assert forall i :: 0 <= i < |s| ==> (s[i] in cs <==> s[i] == cs[0] || s[i] in cs[1..]);
      r
  }

  /** The name with every reserved character replaced by an underscore. */
  function Sanitized(s: string): (r: string)
    ensures |r| == |s|
    ensures Clean(r)
    ensures forall i :: 0 <= i < |s| ==> r[i] == if IsReserved(s[i]) then '_' else s[i]
  {
    seq(|s|, i requires 0 <= i < |s| => if IsReserved(s[i]) then '_' else s[i])
  }

  /** The replacement passes over the reserved characters, taken together, sanitise the name. */
  lemma ReplaceEachReserved(s: string)
    ensures ReplaceEach(s, Reserved) == Sanitized(s)
  {
    assert forall c :: c in Reserved <==> IsReserved(c);
  }

  /** `sanitize_filename`: one replacement pass per reserved character. */
  method SanitizeFilename(filename: string) returns (r: string)
    ensures r == Sanitized(filename)
    ensures |r| == |filename| && Clean(r)
  {
    r := filename;
    ReplaceEachReserved(filename);
    for k := 0 to |Reserved|
      invariant ReplaceEach(r, Reserved[k..]) == Sanitized(filename)
    {
      assert Reserved[k..][0] == Reserved[k] && Reserved[k..][1..] == Reserved[k + 1..];
      r := ReplaceChar(r, Reserved[k], '_');
    }
    assert Reserved[|Reserved|..] == [];
  }

  /** Sanitising twice is sanitising once. */
  lemma SanitizedIdempotent(s: string)
    ensures Sanitized(Sanitized(s)) == Sanitized(s)
  {
    var t := Sanitized(s);
    assert forall i :: 0 <= i < |t| ==> Sanitized(t)[i] == t[i];
  }

  /** A name without reserved characters is left as it is. */
  lemma SanitizedIdentity(s: string)
    requires Clean(s)
    ensures Sanitized(s) == s
  {
    assert forall i :: 0 <= i < |s| ==> Sanitized(s)[i] == s[i];
  }

  /** Sanitising works character by character, so it distributes over concatenation. */
  lemma {:induction false} SanitizedConcat(a: string, b: string)
    ensures Sanitized(a + b) == Sanitized(a) + Sanitized(b)
  {
    var ab := a + b;
    var l := Sanitized(ab);
    var sa, sb := Sanitized(a), Sanitized(b);
    assert |l| == |sa + sb|;
    forall i | 0 <= i < |ab| ensures l[i] == (sa + sb)[i] {
      if i < |a| {
        assert ab[i] == a[i];
        assert (sa + sb)[i] == sa[i];
      } else {
        assert ab[i] == b[i - |a|];
        assert (sa + sb)[i] == sb[i - |a|];
      }
    }
  }

  /** A clean prefix survives sanitisation of the whole. */
  lemma SanitizedCleanPrefix(w: string, x: string)
    requires Clean(w)
    ensures Sanitized(w + x) == w + Sanitized(x)
  {
    SanitizedConcat(w, x);
    SanitizedIdentity(w);
  }

  /** A clean suffix survives sanitisation of the whole. */
  lemma SanitizedCleanSuffix(x: string, w: string)
    requires Clean(w)
    ensures Sanitized(x + w) == Sanitized(x) + w
  {
    SanitizedConcat(x, w);
    SanitizedIdentity(w);
  }

  // ---------------------------------------------------------------------------
  // get_client_ip
  // ---------------------------------------------------------------------------

  /**
   * `get_client_ip`: the `HTTP_X_FORWARDED_FOR` value when `environ.get` gives
   * something other than None, otherwise `environ["REMOTE_ADDR"]`, which raises
   * `KeyError` when that is missing too.
   */
  function GetClientIp(environ: map<string, PyVal>): (r: Result<PyVal, PyError>)
    ensures "HTTP_X_FORWARDED_FOR" in environ && environ["HTTP_X_FORWARDED_FOR"] != PyNone
            ==> r == Ok(environ["HTTP_X_FORWARDED_FOR"])
    ensures !("HTTP_X_FORWARDED_FOR" in environ && environ["HTTP_X_FORWARDED_FOR"] != PyNone)
            ==> r == if "REMOTE_ADDR" in environ then Ok(environ["REMOTE_ADDR"]) else Err(KeyError("REMOTE_ADDR"))
  {
    var forwarded := if "HTTP_X_FORWARDED_FOR" in environ then environ["HTTP_X_FORWARDED_FOR"] else PyNone;
    if forwarded == PyNone then
      if "REMOTE_ADDR" in environ then Ok(environ["REMOTE_ADDR"]) else Err(KeyError("REMOTE_ADDR"))
    else
      Ok(forwarded)
  }

  // ---------------------------------------------------------------------------
  // create_response_data
  // ---------------------------------------------------------------------------

  /**
   * `create_response_data`: `success` and `message` always, `data` exactly when
   * the argument is not None (falsy values such as 0, "" or {} are kept).
   */
  function CreateResponseData(success: bool, message: string, data: PyVal): (r: map<string, PyVal>)
    ensures "success" in r && r["success"] == PyBool(success)
    ensures "message" in r && r["message"] == PyStr(message)
    ensures "data" in r <==> data != PyNone
    ensures "data" in r ==> r["data"] == data
    ensures r.Keys <= {"success", "message", "data"}
  {
    var response := map["success" := PyBool(success), "message" := PyStr(message)];
    if data != PyNone then response["data" := data] else response
  }
}
