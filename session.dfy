/**
 * One crawl session of `rastreo` from end to end: load the dataset of ids
 * already treated (`cargarElementosTratados`), build the work queue, run
 * the loop, merge what it accepted into the dataset and name the two
 * files it writes. Reading and writing the JSON files is left out: the
 * dataset file arrives as its parsed contents, or `None` when it cannot be
 * read or parsed.
 */
module Session {
  import opened Wrappers
  import opened Attributes
  import opened Crawl
  import Decimal
  import Text
  import WorkQueue
  import Driver

  /** The dataset as `rastreo` holds it: the entries by key, and the ids treated. */
  datatype Loaded = Loaded(dict: map<string, Record>, ids: set<int>)

  /** Every key of the dataset is read by `int` without raising. */
  predicate KeysParse(d: map<string, Record>)
  {
    forall k :: k in d ==> Decimal.ParseInt(k).Some?
  }

  /**
   * `cargarElementosTratados`: the dataset and the integer value of each of
   * its keys; a file that cannot be read, or a key that is not an integer,
   * leaves both empty.
   */
  function LoadDataset(file: Option<map<string, Record>>): (r: Loaded)
    ensures file.None? ==> r == Loaded(map[], {})
    ensures file.Some? && KeysParse(file.value) ==> r.dict == file.value
    ensures file.Some? && !KeysParse(file.value) ==> r == Loaded(map[], {})
    ensures forall x :: x in r.ids <==> exists k :: k in r.dict && Decimal.ParseInt(k) == Some(x)
  {
    match file
    case None => Loaded(map[], {})
    case Some(d) =>
      if KeysParse(d) then Loaded(d, set k | k in d :: Decimal.ParseInt(k).value)
      else Loaded(map[], {})
  }

  /** `tratados_dict.update(scrap_json)`: the session's entries win over loaded ones. */
  function Merge(loaded: map<string, Record>, scrap: map<string, Record>): (merged: map<string, Record>)
    ensures merged.Keys == loaded.Keys + scrap.Keys
    ensures forall k :: k in scrap ==> merged[k] == scrap[k]
    ensures forall k :: k in loaded && k !in scrap ==> merged[k] == loaded[k]
  {
    loaded + scrap
  }

  /** The dataset file, chosen by whether icons are saved to separate files. */
  function DatasetFileName(iconoAFichero: bool): (name: string)
    ensures |name| >= 11 && name[..6] == "exodus" && name[|name| - 5..] == ".json"
    ensures iconoAFichero <==> Text.OccursAt(name, "NoIcon", 6)
  {
    if !iconoAFichero then "exodus.json"
    else
      var name := "exodusNoIcon.json";
      assert name[6..12] == "NoIcon";
      name
  }

  /** The incident file, named after the first and the last id of the range. */
  function IncidentFileName(inicio: int, limite: int): (name: string)
    ensures |name| >= 19 && name[..12] == "incidencias_" && name[|name| - 5..] == ".json"
  {
    "incidencias_" + Decimal.Show(inicio) + "_" + Decimal.Show(inicio + limite - 1) + ".json"
  }

  /** What a session leaves behind: the two files and their contents, and the run itself. */
  datatype SessionResult = SessionResult(
    datasetFile: string,
    dataset: map<string, Record>,
    incidentFile: string,
    incidents: map<string, ErrorMap>,
    run: RunResult)

  /**
   * A session, given the dataset file's contents and the outcome of each
   * fetch. The two files differ; the dataset written holds the loaded keys
   * and the accepted ones, and every one of its keys reads back as an id.
   */
  function SessionSpec(file: Option<map<string, Record>>, inicio: int, limite: int,
                       iconoAFichero: bool, outcomes: seq<Outcome>): (o: SessionResult)
    ensures o.datasetFile != o.incidentFile
    ensures o.dataset.Keys == LoadDataset(file).dict.Keys + o.run.final.scrapJson.Keys
    ensures KeysParse(o.dataset)
    ensures |o.run.fetched| <= |outcomes|
  {
    var loaded := LoadDataset(file);
    var lista := WorkQueue.Build(loaded.ids, inicio, limite);
    var r := RunSpec(lista, Initial, outcomes);
    FileNamesDistinct(iconoAFichero, inicio, limite);
    WrittenKeysParse(loaded, lista, outcomes);
    SessionResult(DatasetFileName(iconoAFichero), Merge(loaded.dict, r.final.scrapJson),
            IncidentFileName(inicio, limite), r.final.incidencias, r)
  }

  /** `rastreo`, with the crawl performed in place by a `Driver.Crawler`. */
  method Rastreo(file: Option<map<string, Record>>, inicio: int, limite: int,
                 iconoAFichero: bool, outcomes: seq<Outcome>) returns (result: SessionResult)
    ensures result == SessionSpec(file, inicio, limite, iconoAFichero, outcomes)
  {
    var fichero := DatasetFileName(iconoAFichero);
    var loaded := LoadDataset(file);
    var crawler := new Driver.Crawler(loaded.ids, inicio, limite);
    var fetched, pauses, broke := crawler.Run(outcomes);
    var dataset := Merge(loaded.dict, crawler.scrapJson);
    result := SessionResult(fichero, dataset, IncidentFileName(inicio, limite), crawler.incidencias,
                      RunResult(crawler.Snapshot(), fetched, pauses, broke));
  }

  /**
   * Only ids of the range are fetched, never one already in the dataset,
   * in non-decreasing order, one item after the other.
   */
  lemma NeverRefetches(file: Option<map<string, Record>>, inicio: int, limite: int,
                       iconoAFichero: bool, outcomes: seq<Outcome>)
    ensures var loaded := LoadDataset(file);
      var f := SessionSpec(file, inicio, limite, iconoAFichero, outcomes).run.fetched;
      && (forall k :: 0 <= k < |f| ==> inicio <= f[k] < inicio + limite && f[k] !in loaded.ids)
      && (forall a, b :: 0 <= a < b < |f| ==> f[a] <= f[b])
  {
    var loaded := LoadDataset(file);
    var lista := WorkQueue.Build(loaded.ids, inicio, limite);
    InitialInv(lista);
    RunFetchesInOrder(lista, Initial, outcomes);
    var f := RunSpec(lista, Initial, outcomes).fetched;
    forall k | 0 <= k < |f|
      ensures inicio <= f[k] < inicio + limite && f[k] !in loaded.ids
    {
      var x := f[k];
      assert x in lista[0..];
      var j :| 0 <= j < |lista[0..]| && lista[0..][j] == x;
      assert lista[j] == x;
    }
  }

  /**
   * The session's dataset entries are all under keys of ids it crawled, so
   * none is a loaded key: the merge keeps every loaded entry unchanged and
   * adds every accepted one.
   */
  lemma MergeKeepsLoaded(file: Option<map<string, Record>>, inicio: int, limite: int,
                         iconoAFichero: bool, outcomes: seq<Outcome>)
    ensures var loaded := LoadDataset(file);
      var o := SessionSpec(file, inicio, limite, iconoAFichero, outcomes);
      var scrap := o.run.final.scrapJson;
      && (forall k :: k in scrap ==> k !in loaded.dict)
      && (forall k :: k in loaded.dict ==> k in o.dataset && o.dataset[k] == loaded.dict[k])
      && |o.dataset| == |loaded.dict| + |scrap|
  {
    var loaded := LoadDataset(file);
    var lista := WorkQueue.Build(loaded.ids, inicio, limite);
    InitialInv(lista);
    RunPreservesInv(lista, Initial, outcomes);
    var s := RunSpec(lista, Initial, outcomes).final;
    forall k | k in s.scrapJson
      ensures k !in loaded.dict
    {
      ScrapKeyParses(lista, s, k);
      var x := Decimal.ParseInt(k).value;
      var j :| 0 <= j < s.elem && lista[..s.elem][j] == x;
      assert lista[j] !in loaded.ids;
    }
    assert loaded.dict.Keys * s.scrapJson.Keys == {};
    assert (loaded.dict + s.scrapJson).Keys == loaded.dict.Keys + s.scrapJson.Keys;
  }

  /**
   * The next session over the written dataset treats every id treated
   * before and every id accepted in this one, so it fetches none of them.
   */
  lemma ReloadTreatsAccepted(file: Option<map<string, Record>>, inicio: int, limite: int,
                             iconoAFichero: bool, outcomes: seq<Outcome>)
    ensures var loaded := LoadDataset(file);
      var o := SessionSpec(file, inicio, limite, iconoAFichero, outcomes);
      var again := LoadDataset(Some(o.dataset));
      && again.dict == o.dataset
      && loaded.ids <= again.ids
      && (forall x :: Key(x) in o.run.final.scrapJson ==> x in again.ids)
  {
    var loaded := LoadDataset(file);
    var o := SessionSpec(file, inicio, limite, iconoAFichero, outcomes);
    var lista := WorkQueue.Build(loaded.ids, inicio, limite);
    InitialInv(lista);
    RunPreservesInv(lista, Initial, outcomes);
    var s := RunSpec(lista, Initial, outcomes).final;
    forall k | k in o.dataset
      ensures Decimal.ParseInt(k).Some?
    {
      if k !in loaded.dict {
        ScrapKeyParses(lista, s, k);
      }
    }
    var again := LoadDataset(Some(o.dataset));
    forall x | x in loaded.ids
      ensures x in again.ids
    {
      var k :| k in loaded.dict && Decimal.ParseInt(k) == Some(x);
      assert k in again.dict;
    }
    forall x | Key(x) in s.scrapJson
      ensures x in again.ids
    {
      Decimal.ParseShow(x);
      assert Key(x) in again.dict;
    }
  }

  /**
   * With outcomes that each answer with a status in 200 .. 599, or raise,
   * the session fetches at most `MAX_REINTENTOS` times per id of the range.
   */
  lemma SessionFetchBound(file: Option<map<string, Record>>, inicio: int, limite: int,
                          iconoAFichero: bool, outcomes: seq<Outcome>)
    requires forall k :: 0 <= k < |outcomes| ==> Progressing(outcomes[k])
    ensures |SessionSpec(file, inicio, limite, iconoAFichero, outcomes).run.fetched|
      <= MAX_REINTENTOS * (if limite > 0 then limite else 0)
  {
    var loaded := LoadDataset(file);
    var lista := WorkQueue.Build(loaded.ids, inicio, limite);
    InitialInv(lista);
    FetchBound(lista, Initial, outcomes);
  }

  /** The two dataset variants, and the incident file, never share a name. */
  lemma FileNamesDistinct(iconoAFichero: bool, inicio: int, limite: int)
    ensures DatasetFileName(true) != DatasetFileName(false)
    ensures DatasetFileName(iconoAFichero) != IncidentFileName(inicio, limite)
  {
    assert DatasetFileName(iconoAFichero)[0] == 'e';
    assert IncidentFileName(inicio, limite)[0] == 'i';
  }

  /** The keys of a loaded dataset and those a run accepts all read back as ids. */
  lemma WrittenKeysParse(loaded: Loaded, lista: seq<int>, outcomes: seq<Outcome>)
    requires KeysParse(loaded.dict)
    requires WorkQueue.Increasing(lista)
    ensures KeysParse(Merge(loaded.dict, RunSpec(lista, Initial, outcomes).final.scrapJson))
  {
    InitialInv(lista);
    RunPreservesInv(lista, Initial, outcomes);
    var s := RunSpec(lista, Initial, outcomes).final;
    forall k | k in s.scrapJson
      ensures Decimal.ParseInt(k).Some?
    {
      ScrapKeyParses(lista, s, k);
    }
  }

  /**
   * A dataset file that cannot be read, or that has one key `int` rejects,
   * loads as empty, and the dataset written at the end holds this session's
   * records only: every entry of the old file is lost, not kept.
   */
  lemma UnreadableDatasetIsReplaced(file: Option<map<string, Record>>, inicio: int, limite: int,
                                    iconoAFichero: bool, outcomes: seq<Outcome>)
    requires file.None? || !KeysParse(file.value)
    ensures var o := SessionSpec(file, inicio, limite, iconoAFichero, outcomes);
      && o.dataset == o.run.final.scrapJson
      && (file.Some? ==> exists k :: k in file.value && k !in o.dataset)
  {
    var o := SessionSpec(file, inicio, limite, iconoAFichero, outcomes);
    assert Merge(map[], o.run.final.scrapJson) == o.run.final.scrapJson;
    if file.Some? {
      var k :| k in file.value && Decimal.ParseInt(k).None?;
      assert k !in o.dataset;
    }
  }

  /** Distinct ranges write distinct incident files, and the name gives the range back. */
  lemma IncidentFileNameInjective(inicio: int, limite: int, inicio': int, limite': int)
    requires IncidentFileName(inicio, limite) == IncidentFileName(inicio', limite')
    ensures inicio == inicio' && limite == limite'
  {
    var p, q := "incidencias_", ".json";
    var last, last' := inicio + limite - 1, inicio' + limite' - 1;
    var w := Decimal.Show(inicio) + "_" + Decimal.Show(last);
    var w' := Decimal.Show(inicio') + "_" + Decimal.Show(last');
    Regroup(p, Decimal.Show(inicio), Decimal.Show(last), q);
    Regroup(p, Decimal.Show(inicio'), Decimal.Show(last'), q);
    StripPrefix(p, w + q, w' + q);
    StripSuffix(w, w', q);
    SplitAtUnderscore(inicio, inicio', Decimal.Show(last), Decimal.Show(last'));
    Decimal.ParseShow(last);
    Decimal.ParseShow(last');
  }

  lemma Regroup(p: string, a: string, b: string, q: string)
    ensures p + a + "_" + b + q == p + ((a + "_" + b) + q)
  {
  }

  lemma StripPrefix(p: string, x: string, y: string)
    requires p + x == p + y
    ensures x == y
  {
    assert x == (p + x)[|p|..];
    assert y == (p + y)[|p|..];
  }

  lemma StripSuffix(x: string, y: string, q: string)
    requires x + q == y + q
    ensures x == y
  {
    assert x == (x + q)[..|x|];
    assert y == (y + q)[..|y|];
  }

  /** A number, an underscore and a tail: the number and the tail are read back. */
  lemma SplitAtUnderscore(a: int, b: int, t: string, t': string)
    requires Decimal.Show(a) + "_" + t == Decimal.Show(b) + "_" + t'
    ensures a == b && t == t'
  {
    var u, u' := Decimal.Show(a), Decimal.Show(b);
    var w := u + "_" + t;
    UnderscoreAt(a, t);
    UnderscoreAt(b, t');
    assert u == w[..|u|];
    assert u' == w[..|u'|];
    assert t == w[|u| + 1..];
    assert t' == w[|u'| + 1..];
    Decimal.ParseShow(a);
    Decimal.ParseShow(b);
  }

  /** In `Show(n) + "_" + t` the first underscore is the one after the number. */
  lemma UnderscoreAt(n: int, t: string)
    ensures Text.Find(Decimal.Show(n) + "_" + t, "_") == |Decimal.Show(n)|
  {
    var u := Decimal.Show(n);
    Decimal.ShowAlphabet(n);
    var w := u + "_" + t;
    Text.OccursAtChar(w, '_', |u|);
    forall i | 0 <= i < |u|
      ensures !Text.OccursAt(w, "_", i)
    {
      Text.OccursAtChar(w, '_', i);
    }
    assert Text.Contains(w, "_");
  }
}
