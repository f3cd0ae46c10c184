/**
 * The loop of `rastreo` performed in place: the loop variables and the two
 * dictionaries are the fields of a `Crawler`, one pass of the loop is
 * `Step`, and the loop itself is `Run`. Both are proved to do exactly what
 * `Crawl.StepSpec` and `Crawl.RunSpec` say, and to keep `Crawl.Inv`.
 */
module Driver {
  import opened Wrappers
  import opened Attributes
  import opened Crawl
  import Backoff
  import WorkQueue

  class Crawler {
    /** The work queue, fixed for the session. */
    const lista: seq<int>
    var elem: nat
    var intento: int
    var intento404: int
    var repeticion: bool
    var scrapJson: map<string, Record>
    var incidencias: map<string, ErrorMap>

    /** The loop variables as a value. */
    function Snapshot(): State
      reads this
    {
      State(elem, intento, intento404, repeticion, scrapJson, incidencias)
    }

    ghost predicate Valid()
      reads this
    {
      Inv(lista, Snapshot())
    }

    /** The set-up before the loop: the queue of untreated ids and the initial counters. */
    constructor (tratados: set<int>, inicio: int, limite: int)
      ensures lista == WorkQueue.Build(tratados, inicio, limite)
      ensures Snapshot() == Initial && Valid()
    {
      lista := WorkQueue.Build(tratados, inicio, limite);
      intento := 1;
      intento404 := 1;
      repeticion := true;
      elem := 0;
      incidencias := map[];
      scrapJson := map[];
      new;
      InitialInv(lista);
    }

    /**
     * One pass of the loop body: the handler of the outcome, then the status
     * tests, or the final `else` when no response came back. Returns the
     * seconds waited and whether the pass `break`s.
     */
    method Step(o: Outcome) returns (pause: int, broke: bool)
      requires Valid() && Continues(lista, Snapshot())
      modifies this
      ensures Valid()
      ensures StepResult(Snapshot(), pause, broke) == StepSpec(lista, old(Snapshot()), o)
    {
      StepPreservesInv(lista, Snapshot(), o);
      pause, broke := 0, false;
      var web: Option<Response> := None;
      match o {
        case ConnectionError =>
          pause := Backoff.Delay(Backoff.ConnectionError, intento);
          repeticion := true;
        case ConnectTimeout =>
          pause := Backoff.Delay(Backoff.Timeout, intento);
          repeticion := true;
        case ProxyError =>
          repeticion := false;
        case SslError =>
          repeticion := false;
        case OtherError =>
          repeticion := false;
        case Received(w) =>
          web := Some(w);
      }
      if web.Some? {
        pause, broke := Classify(web.value);
      } else {
        NextAttempt();
      }
    }

    /** The shared tail of several branches: one more attempt, or the next item at attempt 1. */
    method NextAttempt()
      modifies this
      ensures Snapshot() == Retry(old(Snapshot()))
    {
      if intento < MAX_REINTENTOS {
        intento := intento + 1;
      } else {
        intento := 1;
        elem := elem + 1;
      }
    }

    /** The status tests of a response, each a separate `if` over a range of codes. */
    method Classify(web: Response) returns (pause: int, broke: bool)
      requires elem < |lista|
      modifies this
      ensures StepResult(Snapshot(), pause, broke) == ClassifyStatus(lista, old(Snapshot()), web)
    {
      pause, broke := 0, false;
      var code := web.status;
      if 500 <= code < 600 {
        pause := Backoff.Delay(Backoff.ServerError, intento);
        repeticion := true;
        NextAttempt();
      }
      if 400 <= code < 500 {
        pause := Backoff.Delay(Backoff.ClientError, intento);
        repeticion := true;
        if intento < MAX_REINTENTOS {
          intento := intento + 1;
        } else if intento404 < MAX_REINTENTOS_404 {
          intento := 1;
          intento404 := intento404 + 1;
          elem := elem + 1;
        } else {
          broke := true;
          return;
        }
      }
      if 300 <= code < 400 {
        repeticion := false;
        intento := 1;
        elem := elem + 1;
      }
      if 200 < code < 300 {
        pause := Backoff.Delay(Backoff.SuccessWithWarnings, intento);
        repeticion := true;
        NextAttempt();
      }
      if code == 200 {
        pause := Record(web.page);
      }
    }

    /**
     * Status 200: file the error map, and the record when within tolerance,
     * under the current item's key, and move to the next item.
     */
    method Record(page: Extraction) returns (pause: int)
      requires elem < |lista|
      modifies this
      ensures StepResult(Snapshot(), pause, false) == RecordPage(Key(lista[old(elem)]), old(Snapshot()), page)
    {
      pause := 0;
      var key := Key(lista[elem]);
      match page.app {
        case Some(app) =>
          if |page.error| > TOLERANCE {
            incidencias := incidencias[key := page.error];
          } else {
            scrapJson := scrapJson[key := app];
            incidencias := incidencias[key := page.error];
          }
          elem := elem + 1;
          intento := 1;
          pause := Backoff.Delay(Backoff.Standard, intento);
        case None =>
          incidencias := incidencias[key := page.error];
          elem := elem + 1;
          intento := 1;
      }
    }

    /**
     * The `while` loop of `rastreo`, fed one outcome per pass; it also stops
     * when no outcome is left. Returns the ids fetched and the waits, in
     * order, and whether it ended on a `break`.
     */
    method Run(outcomes: seq<Outcome>) returns (fetched: seq<int>, pauses: seq<int>, broke: bool)
      requires Valid()
      modifies this
      ensures Valid()
      ensures RunSpec(lista, old(Snapshot()), outcomes) == RunResult(Snapshot(), fetched, pauses, broke)
    {
      fetched, pauses, broke := [], [], false;
      var i := 0;
      while elem < |lista| && intento <= MAX_REINTENTOS && repeticion && i < |outcomes|
        invariant 0 <= i <= |outcomes|
        invariant Valid()
        invariant RunSpec(lista, old(Snapshot()), outcomes)
          == Prepend(fetched, pauses, RunSpec(lista, Snapshot(), outcomes[i..]))
        decreases |outcomes| - i
      {
        ghost var rest := outcomes[i..];
        assert rest[0] == outcomes[i] && rest[1..] == outcomes[i + 1..];
        RunStep(lista, Snapshot(), rest, fetched, pauses, RunSpec(lista, old(Snapshot()), outcomes));
        var id := lista[elem];
        var pause, b := Step(outcomes[i]);
        fetched, pauses := fetched + [id], pauses + [pause];
        if b {
          broke := true;
          break;
        }
        i := i + 1;
      }
    }
  }
}
