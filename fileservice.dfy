/**
 * The file service: the retention sweep of the output directory and the
 * template presence check. The file system is represented by a map from the
 * names directly inside the output directory to their kind and modification
 * time, and by the set of paths that exist.
 */
module FileService {
  import opened AppConfig

  /** A directory entry: whether `os.path.isfile` holds of it, and its `getmtime` in seconds. */
  datatype Entry = Entry(isFile: bool, mtime: int)

  type Listing = map<string, Entry>

  const SecondsPerDay: int := 86400

  /** `now - dias * 86400`: files modified strictly before this instant are old. */
  function Cutoff(now: int, dias: int): int {
    now - dias * SecondsPerDay
  }

  /** The sweep deletes exactly the regular files last modified before the cutoff. */
  predicate Expired(e: Entry, cutoff: int) {
    e.isFile && e.mtime < cutoff
  }

  /**
   * How the sweep ended: it went through the whole listing, or `os.remove` of
   * `name` raised, which the single `try` around the loop logs and swallows.
   */
  datatype SweepOutcome = Completed | Aborted(name: string)

  /**
   * The directory and outcome after sweeping the names of `order` in that order;
   * `denied` are the names whose removal the operating system refuses.
   */
  function Sweep(entries: Listing, order: seq<string>, cutoff: int, denied: set<string>): (Listing, SweepOutcome)
  {
    if order == [] then (entries, Completed)
    else
      var n := order[0];
      if n in entries && Expired(entries[n], cutoff) then
        if n in denied then (entries, Aborted(n))
        else Sweep(entries - {n}, order[1..], cutoff, denied)
      else Sweep(entries, order[1..], cutoff, denied)
  }

  /** `entries` without the expired regular files whose names are in `names`. */
  function Without(entries: Listing, names: seq<string>, cutoff: int): (r: Listing)
    ensures r.Keys <= entries.Keys
  {
    map n | n in entries && !(n in names && Expired(entries[n], cutoff)) :: entries[n]
  }

  /** Index of the first listed name whose removal fails, or `|order|` when there is none. */
  function FirstFailure(entries: Listing, order: seq<string>, cutoff: int, denied: set<string>): (j: nat)
    ensures j <= |order|
    ensures j < |order| ==> order[j] in entries && Expired(entries[order[j]], cutoff) && order[j] in denied
    ensures forall i :: 0 <= i < j ==> !(order[i] in entries && Expired(entries[order[i]], cutoff) && order[i] in denied)
  {
    if order == [] then 0
    else if order[0] in entries && Expired(entries[order[0]], cutoff) && order[0] in denied then 0
    else 1 + FirstFailure(entries, order[1..], cutoff, denied)
  }

  /**
   * The sweep removes the expired regular files listed before the first removal
   * that fails, and nothing else; it ends there with that name, or completes.
   */
  lemma {:induction false} SweepResult(entries: Listing, order: seq<string>, cutoff: int, denied: set<string>)
    ensures var j := FirstFailure(entries, order, cutoff, denied);
      Sweep(entries, order, cutoff, denied)
        == (Without(entries, order[..j], cutoff), if j < |order| then Aborted(order[j]) else Completed)
  {
    var j := FirstFailure(entries, order, cutoff, denied);
    if order == [] {
      assert Without(entries, [], cutoff) == entries;
    } else {
      var n := order[0];
      if n in entries && Expired(entries[n], cutoff) && n in denied {
        assert j == 0 && order[..0] == [];
        assert Without(entries, [], cutoff) == entries;
      } else {
        var rest := if n in entries && Expired(entries[n], cutoff) then entries - {n} else entries;
        assert Sweep(entries, order, cutoff, denied) == Sweep(rest, order[1..], cutoff, denied);
        FirstFailureAfter(entries, rest, order, cutoff, denied);
        SweepResult(rest, order[1..], cutoff, denied);
        var k := FirstFailure(rest, order[1..], cutoff, denied);
        assert j == 1 + k;
        assert order[..j] == [n] + order[1..][..k];
        assert Without(rest, order[1..][..k], cutoff) == Without(entries, order[..j], cutoff);
      }
    }
  }

  /** Removing the first listed name (or keeping it) shifts the first failure by one. */
  lemma FirstFailureAfter(entries: Listing, rest: Listing, order: seq<string>, cutoff: int, denied: set<string>)
    requires order != []
    requires !(order[0] in entries && Expired(entries[order[0]], cutoff) && order[0] in denied)
    requires rest == if order[0] in entries && Expired(entries[order[0]], cutoff) then entries - {order[0]} else entries
    ensures FirstFailure(entries, order, cutoff, denied) == 1 + FirstFailure(rest, order[1..], cutoff, denied)
  {
    FirstFailureFrame(entries, rest, order[1..], cutoff, denied, order[0]);
  }

  /** First failure over a tail is the same whether or not an already-handled name is still present. */
  lemma {:induction false} FirstFailureFrame(entries: Listing, rest: Listing, order: seq<string>, cutoff: int, denied: set<string>, n: string)
    requires !(n in entries && Expired(entries[n], cutoff) && n in denied)
    requires rest == if n in entries && Expired(entries[n], cutoff) then entries - {n} else entries
    ensures FirstFailure(entries, order, cutoff, denied) == FirstFailure(rest, order, cutoff, denied)
  {
    if order != [] {
      FirstFailureFrame(entries, rest, order[1..], cutoff, denied, n);
    }
  }

  /** With no failing removal the sweep deletes exactly the expired regular files. */
  lemma SweepRemovesExpired(entries: Listing, order: seq<string>, cutoff: int, denied: set<string>)
    requires forall n :: n in entries ==> n in order
    requires forall n :: n in entries && Expired(entries[n], cutoff) ==> n !in denied
    ensures var (after, outcome) := Sweep(entries, order, cutoff, denied);
      && outcome == Completed
      && (forall n :: n in after <==> n in entries && !Expired(entries[n], cutoff))
      && (forall n :: n in after ==> after[n] == entries[n])
  {
    SweepResult(entries, order, cutoff, denied);
    assert order[..|order|] == order;
  }

  /** Whatever happens, the sweep only deletes expired regular files that were listed, and changes no entry. */
  lemma SweepOnlyRemovesExpired(entries: Listing, order: seq<string>, cutoff: int, denied: set<string>)
    ensures var after := Sweep(entries, order, cutoff, denied).0;
      && (forall n :: n in after ==> n in entries && after[n] == entries[n])
      && (forall n :: n in entries && n !in after ==> n in order && Expired(entries[n], cutoff))
  {
    SweepResult(entries, order, cutoff, denied);
    var j := FirstFailure(entries, order, cutoff, denied);
    assert forall n :: n in order[..j] ==> n in order;
  }

  /** A file one day past the retention period is deleted; one a day short of it is kept. */
  lemma RetentionExample(now: int)
    ensures var ds := map["a.xlsx" := Entry(true, now - 8 * 86400), "b.xlsx" := Entry(true, now - 6 * 86400)];
      Sweep(ds, ["a.xlsx", "b.xlsx"], Cutoff(now, 7), {}) == (map["b.xlsx" := ds["b.xlsx"]], Completed)
  {
    var ds := map["a.xlsx" := Entry(true, now - 8 * 86400), "b.xlsx" := Entry(true, now - 6 * 86400)];
    var order := ["a.xlsx", "b.xlsx"];
    var cutoff := Cutoff(now, 7);
    var rest := ds - {"a.xlsx"};
    assert rest == map["b.xlsx" := ds["b.xlsx"]];
    assert Sweep(ds, order, cutoff, {}) == Sweep(rest, order[1..], cutoff, {});
    assert order[1..] == ["b.xlsx"] && order[1..][1..] == [];
    assert Sweep(rest, ["b.xlsx"], cutoff, {}) == Sweep(rest, [], cutoff, {});
  }

  /** The output directory, whose entries the sweep deletes in place. */
  class OutputDir {
    var entries: Listing

    constructor (entries: Listing)
      ensures this.entries == entries
    {
      this.entries := entries;
    }

    /**
     * `limpiar_archivos_antiguos(dias)`: `listing` is what `os.listdir` returns,
     * `now` is `time.time()`, `denied` the names `os.remove` fails on.
     */
    method LimpiarArchivosAntiguos(listing: seq<string>, now: int, dias: int, denied: set<string>)
      returns (outcome: SweepOutcome)
      modifies this
      ensures (entries, outcome) == Sweep(old(entries), listing, Cutoff(now, dias), denied)
    {
      var cutoff := Cutoff(now, dias);
      for i := 0 to |listing|
        invariant Sweep(entries, listing[i..], cutoff, denied) == Sweep(old(entries), listing, cutoff, denied)
      {
        var filename := listing[i];
        assert listing[i..][0] == filename && listing[i..][1..] == listing[i + 1..];
        if filename in entries && entries[filename].isFile {
          if entries[filename].mtime < cutoff {
            if filename in denied {
              return Aborted(filename);
            }
            entries := entries - {filename};
          }
        }
      }
      assert listing[|listing|..] == [];
      return Completed;
    }
  }

  /**
   * `validar_plantilla(tipo)`: false for an unknown type, otherwise whether the
   * template's path under the templates directory exists.
   */
  function ValidarPlantilla(catalog: Catalog, templatesDir: string, existing: set<string>, tipo: string): (ok: bool)
    ensures ok <==> tipo in catalog && Join(templatesDir, catalog[tipo].plantilla) in existing
  {
    if tipo !in catalog then false
    else Join(templatesDir, catalog[tipo].plantilla) in existing
  }
}
