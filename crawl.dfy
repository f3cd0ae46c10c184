/**
 * The crawl driver of `rastreo` as a state machine. One step is one pass of
 * its `while` loop: fetch the item at `elem`, classify what came back, wait,
 * and move `intento`, `intento404`, `repeticion` and `elem` on. `StepSpec`
 * and `RunSpec` state what the loop does; the class `Crawler` in module
 * `Driver` performs it in place and is proved to agree with them.
 */
module Crawl {
  import opened Wrappers
  import opened Attributes
  import Backoff
  import Decimal
  import WorkQueue

  /** `MAX_REINTENTOS`: fetches of one item before it is given up. */
  const MAX_REINTENTOS: int := 10
  /** `MAX_REINTENTOS_404`: client-error exhaustions tolerated in one session. */
  const MAX_REINTENTOS_404: int := 3

  /** A response with its status and what the extractor makes of its body. */
  datatype Response = Response(status: int, page: Extraction)

  /**
   * What one `requests.get` ends in, named by the handler that catches it,
   * in the order of the `except` clauses, or the response it returns.
   */
  datatype Outcome =
    | ConnectionError
    | ConnectTimeout
    | ProxyError
    | SslError
    | OtherError
    | Received(web: Response)

  /** The loop variables of `rastreo` and its two dictionaries. */
  datatype State = State(
    elem: nat,
    intento: int,
    intento404: int,
    repeticion: bool,
    scrapJson: map<string, Record>,
    incidencias: map<string, ErrorMap>)

  /** The values `rastreo` sets before its loop. */
  const Initial: State := State(0, 1, 1, true, map[], map[])

  /** A step's new state, the seconds it sleeps (0 for none), and whether it `break`s. */
  datatype StepResult = StepResult(next: State, pause: int, broke: bool)

  /** `str(lista[elem])`, the key of an item in both dictionaries. */
  function Key(id: int): string
  {
    Decimal.Show(id)
  }

  /** The loop condition of `rastreo`. */
  predicate Continues(lista: seq<int>, s: State)
  {
    s.elem < |lista| && s.intento <= MAX_REINTENTOS && s.repeticion
  }

  /** One more attempt at the same item while below the maximum, otherwise on to the next item. */
  function Retry(s: State): (t: State)
    ensures t.scrapJson == s.scrapJson && t.incidencias == s.incidencias
    ensures t.repeticion == s.repeticion && t.intento404 == s.intento404
    ensures 1 <= s.intento <= MAX_REINTENTOS ==> 1 <= t.intento <= MAX_REINTENTOS
    ensures t.elem == s.elem + 1 <==> s.intento >= MAX_REINTENTOS
    ensures t.elem == s.elem || (t.elem == s.elem + 1 && t.intento == 1)
  {
    if s.intento < MAX_REINTENTOS then s.(intento := s.intento + 1)
    else s.(intento := 1, elem := s.elem + 1)
  }

  /**
   * One pass of the loop. Every exception leaves `web` as `None`, so the
   * final `else` branch (`Retry`) runs after its handler; a response is
   * classified by the status ranges of the separate `if`s, which never
   * overlap; a status below 200 or from 600 up matches none of them.
   */
  function StepSpec(lista: seq<int>, s: State, o: Outcome): (r: StepResult)
    requires s.elem < |lista|
    ensures s.elem <= r.next.elem <= s.elem + 1
    ensures r.broke ==> o.Received? && 400 <= o.web.status < 500 && r.next.elem == s.elem
  {
    match o
    case ConnectionError =>
      StepResult(Retry(s.(repeticion := true)), Backoff.Delay(Backoff.ConnectionError, s.intento), false)
    case ConnectTimeout =>
      StepResult(Retry(s.(repeticion := true)), Backoff.Delay(Backoff.Timeout, s.intento), false)
    case ProxyError | SslError | OtherError =>
      StepResult(Retry(s.(repeticion := false)), 0, false)
    case Received(web) =>
      ClassifyStatus(lista, s, web)
  }

  /**
   * The status tests. Only a client error on the last attempt, once
   * `intento404` is at its maximum, `break`s, and then on the same item.
   */
  function ClassifyStatus(lista: seq<int>, s: State, web: Response): (r: StepResult)
    requires s.elem < |lista|
    ensures s.elem <= r.next.elem <= s.elem + 1
    ensures r.broke ==>
      && 400 <= web.status < 500 && s.intento >= MAX_REINTENTOS
      && s.intento404 >= MAX_REINTENTOS_404 && r.next.elem == s.elem
  {
    var code := web.status;
    if 500 <= code < 600 then
      StepResult(Retry(s.(repeticion := true)), Backoff.Delay(Backoff.ServerError, s.intento), false)
    else if 400 <= code < 500 then
      var pause := Backoff.Delay(Backoff.ClientError, s.intento);
      if s.intento < MAX_REINTENTOS then
        StepResult(s.(repeticion := true, intento := s.intento + 1), pause, false)
      else if s.intento404 < MAX_REINTENTOS_404 then
        StepResult(s.(repeticion := true, intento := 1, intento404 := s.intento404 + 1, elem := s.elem + 1), pause, false)
      else
        StepResult(s.(repeticion := true), pause, true)
    else if 300 <= code < 400 then
      StepResult(s.(repeticion := false, intento := 1, elem := s.elem + 1), 0, false)
    else if 200 < code < 300 then
      StepResult(Retry(s.(repeticion := true)), Backoff.Delay(Backoff.SuccessWithWarnings, s.intento), false)
    else if code == 200 then
      RecordPage(Key(lista[s.elem]), s, web.page)
    else
      StepResult(s, 0, false)
  }

  /**
   * Status 200: the error map always goes to `incidencias`, the record to
   * `scrapJson` only within tolerance; then the next item, at attempt 1,
   * after the standard wait of that attempt.
   */
  function RecordPage(key: string, s: State, page: Extraction): (r: StepResult)
    ensures key in r.next.incidencias && r.next.incidencias[key] == page.error
    ensures key in r.next.scrapJson <==> key in s.scrapJson || (page.app.Some? && |page.error| <= TOLERANCE)
    ensures page.app.Some? && |page.error| <= TOLERANCE ==> r.next.scrapJson[key] == page.app.value
    ensures r.next.elem == s.elem + 1 && r.next.intento == 1 && !r.broke
    ensures r.next.repeticion == s.repeticion && r.next.intento404 == s.intento404
    ensures r.pause == if page.app.Some? then Backoff.BaseSeconds(Backoff.Standard) else 0
  {
    match page.app
    case Some(app) =>
      var scrap := if |page.error| > TOLERANCE then s.scrapJson else s.scrapJson[key := app];
      var s' := s.(scrapJson := scrap, incidencias := s.incidencias[key := page.error]);
      StepResult(s'.(elem := s.elem + 1, intento := 1), Backoff.Delay(Backoff.Standard, 1), false)
    case None =>
      StepResult(s.(incidencias := s.incidencias[key := page.error], elem := s.elem + 1, intento := 1), 0, false)
  }

  /** What a sequence of loop passes produced: the ids fetched and the waits, in order. */
  datatype RunResult = RunResult(final: State, fetched: seq<int>, pauses: seq<int>, broke: bool)

  function Prepend(fetched: seq<int>, pauses: seq<int>, r: RunResult): RunResult
  {
    r.(fetched := fetched + r.fetched, pauses := pauses + r.pauses)
  }

  /**
   * The loop of `rastreo` driven by the outcomes of its fetches, one per
   * pass; it also stops when no outcome is left.
   */
  function RunSpec(lista: seq<int>, s: State, outcomes: seq<Outcome>): (r: RunResult)
    decreases |outcomes|
    ensures |r.fetched| == |r.pauses| <= |outcomes|
    ensures s.elem <= r.final.elem
    ensures r.broke ==> r.fetched != []
    ensures !r.broke && |r.fetched| < |outcomes| ==> !Continues(lista, r.final)
  {
    if Continues(lista, s) && |outcomes| > 0 then
      var r := StepSpec(lista, s, outcomes[0]);
      if r.broke then RunResult(r.next, [lista[s.elem]], [r.pause], true)
      else Prepend([lista[s.elem]], [r.pause], RunSpec(lista, r.next, outcomes[1..]))
    else RunResult(s, [], [], false)
  }

  function KeysOf(ids: seq<int>): set<string>
  {
    set x | x in ids :: Key(x)
  }

  /**
   * What holds before and after every pass: the queue ascends, `intento` is
   * within 1 .. `MAX_REINTENTOS` and `intento404` within
   * 1 .. `MAX_REINTENTOS_404`; only items already passed have an incident
   * entry; a dataset entry always has an incident entry within tolerance.
   */
  ghost predicate Inv(lista: seq<int>, s: State)
    ensures Inv(lista, s) ==> s.elem <= |lista| && s.scrapJson.Keys <= KeysOf(lista[..s.elem])
  {
    && WorkQueue.Increasing(lista)
    && 1 <= s.intento <= MAX_REINTENTOS
    && 1 <= s.intento404 <= MAX_REINTENTOS_404
    && s.elem <= |lista|
    && (s.elem == |lista| ==> s.intento == 1)
    && Passed(lista, s.elem, s.incidencias)
    && Covered(s.scrapJson, s.incidencias)
  }

  /** Only items before position `e` have an incident entry. */
  ghost predicate Passed(lista: seq<int>, e: nat, inc: map<string, ErrorMap>)
    requires e <= |lista|
  {
    inc.Keys <= KeysOf(lista[..e])
  }

  /** Every dataset key has an incident entry within tolerance. */
  ghost predicate Covered(scrap: map<string, Record>, inc: map<string, ErrorMap>)
  {
    forall k :: k in scrap ==> k in inc && |inc[k]| <= TOLERANCE
  }

  lemma InitialInv(lista: seq<int>)
    requires WorkQueue.Increasing(lista)
    ensures Inv(lista, Initial)
  {
  }

  /** The key of the current item is not yet in either dictionary. */
  lemma CurrentKeyIsNew(lista: seq<int>, s: State)
    requires Inv(lista, s) && s.elem < |lista|
    ensures Key(lista[s.elem]) !in s.incidencias && Key(lista[s.elem]) !in s.scrapJson
  {
    var key := Key(lista[s.elem]);
    forall x | x in lista[..s.elem]
      ensures Key(x) != key
    {
      var j :| 0 <= j < s.elem && lista[..s.elem][j] == x;
      Decimal.ShowDistinct(x, lista[s.elem]);
    }
  }

  /** Every dataset key is the key of an item already passed, and reads back as its id. */
  lemma ScrapKeyParses(lista: seq<int>, s: State, k: string)
    requires Inv(lista, s) && k in s.scrapJson
    ensures Decimal.ParseInt(k).Some? && Decimal.ParseInt(k).value in lista[..s.elem]
  {
    assert k in KeysOf(lista[..s.elem]);
    var x :| x in lista[..s.elem] && Key(x) == k;
    Decimal.ParseShow(x);
  }

  lemma KeysOfExtend(lista: seq<int>, e: nat)
    requires e < |lista|
    ensures KeysOf(lista[..e + 1]) == KeysOf(lista[..e]) + {Key(lista[e])}
  {
    assert lista[..e + 1] == lista[..e] + [lista[e]];
  }

  lemma KeysOfGrow(lista: seq<int>, e: nat, e': nat)
    requires e <= e' <= |lista|
    ensures KeysOf(lista[..e]) <= KeysOf(lista[..e'])
  {
    forall x | x in lista[..e]
      ensures x in lista[..e']
    {
      var j :| 0 <= j < e && lista[..e][j] == x;
      assert lista[..e'][j] == x;
    }
  }

  /** Passing to the next item at attempt 1, dictionaries untouched, keeps the invariant. */
  lemma AdvanceKeepsInv(lista: seq<int>, s: State, t: State)
    requires Inv(lista, s) && s.elem < |lista|
    requires t == s.(elem := s.elem + 1, intento := 1, intento404 := t.intento404, repeticion := t.repeticion)
    requires 1 <= t.intento404 <= MAX_REINTENTOS_404
    ensures Inv(lista, t)
  {
    KeysOfGrow(lista, s.elem, t.elem);
  }

  lemma RetryKeepsInv(lista: seq<int>, s: State, b: bool)
    requires Inv(lista, s) && s.elem < |lista|
    ensures Inv(lista, Retry(s.(repeticion := b)))
  {
    if s.intento >= MAX_REINTENTOS {
      AdvanceKeepsInv(lista, s, Retry(s.(repeticion := b)));
    }
  }

  /** Recording an error map, and the record if within tolerance, under a new key keeps `Covered`. */
  lemma CoveredInsert(scrap: map<string, Record>, inc: map<string, ErrorMap>, key: string,
                      app: Option<Record>, error: ErrorMap)
    requires Covered(scrap, inc) && key !in scrap
    ensures Covered(if app.Some? && |error| <= TOLERANCE then scrap[key := app.value] else scrap,
                    inc[key := error])
  {
  }

  lemma RecordPageKeepsInv(lista: seq<int>, s: State, page: Extraction)
    requires Inv(lista, s) && s.elem < |lista|
    ensures Inv(lista, RecordPage(Key(lista[s.elem]), s, page).next)
  {
    var key := Key(lista[s.elem]);
    CurrentKeyIsNew(lista, s);
    PassedInsert(lista, s.elem, s.incidencias, page.error);
    CoveredInsert(s.scrapJson, s.incidencias, key, page.app, page.error);
    var t := RecordPage(key, s, page).next;
    var scrap := if page.app.Some? && |page.error| <= TOLERANCE
                 then s.scrapJson[key := page.app.value] else s.scrapJson;
    assert t == s.(scrapJson := scrap, incidencias := s.incidencias[key := page.error],
                   elem := s.elem + 1, intento := 1);
  }

  /** Recording the current item's key keeps `Passed` one position further. */
  lemma PassedInsert(lista: seq<int>, e: nat, inc: map<string, ErrorMap>, error: ErrorMap)
    requires e < |lista| && Passed(lista, e, inc)
    ensures Passed(lista, e + 1, inc[Key(lista[e]) := error])
  {
    KeysOfExtend(lista, e);
  }

  /** Every pass keeps the invariant. */
  lemma StepPreservesInv(lista: seq<int>, s: State, o: Outcome)
    requires Inv(lista, s) && s.elem < |lista|
    ensures Inv(lista, StepSpec(lista, s, o).next)
  {
    match o
    case ConnectionError => RetryKeepsInv(lista, s, true);
    case ConnectTimeout => RetryKeepsInv(lista, s, true);
    case ProxyError => RetryKeepsInv(lista, s, false);
    case SslError => RetryKeepsInv(lista, s, false);
    case OtherError => RetryKeepsInv(lista, s, false);
    case Received(web) =>
      var code := web.status;
      var t := StepSpec(lista, s, o).next;
      if 500 <= code < 600 || 200 < code < 300 {
        RetryKeepsInv(lista, s, true);
      } else if 400 <= code < 500 {
        if s.intento >= MAX_REINTENTOS && s.intento404 < MAX_REINTENTOS_404 {
          AdvanceKeepsInv(lista, s, t);
        }
      } else if 300 <= code < 400 {
        AdvanceKeepsInv(lista, s, t);
      } else if code == 200 {
        RecordPageKeepsInv(lista, s, web.page);
      }
  }

  /** The fetch was answered with a client error on the last allowed attempt. */
  predicate ClientErrorExhausted(s: State, o: Outcome)
  {
    o.Received? && 400 <= o.web.status < 500 && s.intento >= MAX_REINTENTOS
  }

  /**
   * `intento` moves in exactly three ways: one up on the same item while
   * below `MAX_REINTENTOS`, back to 1 together with one item forward, or not
   * at all (a `break`, or a status outside 200 .. 599).
   */
  lemma StepAttempt(lista: seq<int>, s: State, o: Outcome)
    requires Inv(lista, s) && s.elem < |lista|
    ensures var r := StepSpec(lista, s, o);
      || (s.intento < MAX_REINTENTOS && r.next.intento == s.intento + 1 && r.next.elem == s.elem)
      || (r.next.intento == 1 && r.next.elem == s.elem + 1)
      || (r.next.intento == s.intento && r.next.elem == s.elem
          && (r.broke || (o.Received? && !(200 <= o.web.status < 600))))
  {
  }

  /**
   * `intento404` never decreases and moves only on a client-error
   * exhaustion: one up while below `MAX_REINTENTOS_404`; at the maximum the
   * loop `break`s, without advancing.
   */
  lemma Step404(lista: seq<int>, s: State, o: Outcome)
    requires Inv(lista, s) && s.elem < |lista|
    ensures var r := StepSpec(lista, s, o);
      && r.next.intento404 >= s.intento404
      && (r.next.intento404 != s.intento404 <==> ClientErrorExhausted(s, o) && s.intento404 < MAX_REINTENTOS_404)
      && (r.broke <==> ClientErrorExhausted(s, o) && s.intento404 == MAX_REINTENTOS_404)
      && (r.broke ==> r.next.elem == s.elem)
  {
  }

  /** The outcomes after which the crawl stops on its own. */
  predicate IsFatal(o: Outcome)
  {
    o.ProxyError? || o.SslError? || o.OtherError? || (o.Received? && 300 <= o.web.status < 400)
  }

  /**
   * `repeticion` ends up false exactly after a proxy, SSL or unclassified
   * exception, or a 3xx; a 3xx also moves to the next item at attempt 1.
   */
  lemma StepStops(lista: seq<int>, s: State, o: Outcome)
    requires Inv(lista, s) && Continues(lista, s)
    ensures var r := StepSpec(lista, s, o);
      && (!r.next.repeticion <==> IsFatal(o))
      && (o.Received? && 300 <= o.web.status < 400 ==>
            r.next.elem == s.elem + 1 && r.next.intento == 1 && r.pause == 0)
  {
  }

  /**
   * Status 200 with a record: the item's key gets its error map in
   * `incidencias`, and gets the record in `scrapJson` if and only if the
   * error map has at most `TOLERANCE` entries; nothing else in either map
   * changes; `elem` moves one on, `intento` is 1, and the wait is 3 seconds.
   */
  lemma StepRecordsPage(lista: seq<int>, s: State, app: Record, error: ErrorMap)
    requires Inv(lista, s) && s.elem < |lista|
    ensures var key := Key(lista[s.elem]);
      var r := StepSpec(lista, s, Received(Response(200, Extraction(Some(app), error))));
      && r.next.incidencias == s.incidencias[key := error]
      && (key in r.next.scrapJson <==> |error| <= TOLERANCE)
      && (key in r.next.scrapJson ==> r.next.scrapJson[key] == app)
      && (forall k :: k != key ==> (k in r.next.scrapJson <==> k in s.scrapJson))
      && (forall k :: k != key && k in s.scrapJson ==> r.next.scrapJson[k] == s.scrapJson[k])
      && r.next.elem == s.elem + 1 && r.next.intento == 1
      && r.next.intento404 == s.intento404 && r.next.repeticion == s.repeticion
      && r.pause == 3 && !r.broke
  {
    CurrentKeyIsNew(lista, s);
  }

  /** A status outside 200 .. 599 changes nothing, waits nothing. */
  lemma StepStalls(lista: seq<int>, s: State, web: Response)
    requires s.elem < |lista|
    requires !(200 <= web.status < 600)
    ensures StepSpec(lista, s, Received(web)) == StepResult(s, 0, false)
  {
  }

  /** The outcomes that let the loop make progress. */
  predicate Progressing(o: Outcome)
  {
    o.Received? ==> 200 <= o.web.status < 600
  }

  /**
   * The termination measure: the lexicographic pair
   * (items left, attempts left) folded into one number.
   */
  function Rank(lista: seq<int>, s: State): int
  {
    (|lista| - s.elem) * MAX_REINTENTOS - s.intento + 1
  }

  lemma RankBounds(lista: seq<int>, s: State)
    requires Inv(lista, s)
    ensures Rank(lista, s) >= 0
    ensures s.elem < |lista| ==> Rank(lista, s) >= 1
  {
  }

  /**
   * A progressing outcome either ends the loop (a `break` or `repeticion`
   * false) or strictly lowers the measure.
   */
  lemma StepProgress(lista: seq<int>, s: State, o: Outcome)
    requires Inv(lista, s) && Continues(lista, s) && Progressing(o)
    ensures var r := StepSpec(lista, s, o);
      r.broke || !r.next.repeticion || Rank(lista, r.next) < Rank(lista, s)
  {
  }

  /** Every run keeps the invariant. */
  lemma {:induction false} RunPreservesInv(lista: seq<int>, s: State, outcomes: seq<Outcome>)
    requires Inv(lista, s)
    ensures Inv(lista, RunSpec(lista, s, outcomes).final)
    decreases |outcomes|
  {
    if Continues(lista, s) && |outcomes| > 0 {
      StepPreservesInv(lista, s, outcomes[0]);
      var r := StepSpec(lista, s, outcomes[0]);
      if !r.broke {
        RunPreservesInv(lista, r.next, outcomes[1..]);
      }
    }
  }

  /**
   * The loop ends because the queue is done, `repeticion` went false, it
   * `break`s, or the outcomes ran out: never because of the `intento` test,
   * which always holds. One id is fetched per pass, one wait per pass.
   */
  lemma {:induction false} RunEnds(lista: seq<int>, s: State, outcomes: seq<Outcome>)
    requires Inv(lista, s)
    ensures var r := RunSpec(lista, s, outcomes);
      && r.final.intento <= MAX_REINTENTOS
      && (r.broke || r.final.elem == |lista| || !r.final.repeticion || |r.fetched| == |outcomes|)
      && |r.pauses| == |r.fetched| <= |outcomes|
    decreases |outcomes|
  {
    if Continues(lista, s) && |outcomes| > 0 {
      StepPreservesInv(lista, s, outcomes[0]);
      var r := StepSpec(lista, s, outcomes[0]);
      if !r.broke {
        RunEnds(lista, r.next, outcomes[1..]);
      }
    }
  }

  /**
   * With progressing outcomes the loop fetches at most `Rank` times: at most
   * `MAX_REINTENTOS` fetches per item left.
   */
  lemma {:induction false} FetchBound(lista: seq<int>, s: State, outcomes: seq<Outcome>)
    requires Inv(lista, s)
    requires forall k :: 0 <= k < |outcomes| ==> Progressing(outcomes[k])
    ensures |RunSpec(lista, s, outcomes).fetched| <= Rank(lista, s)
    decreases |outcomes|
  {
    RankBounds(lista, s);
    if Continues(lista, s) && |outcomes| > 0 {
      StepPreservesInv(lista, s, outcomes[0]);
      StepProgress(lista, s, outcomes[0]);
      var r := StepSpec(lista, s, outcomes[0]);
      if !r.broke {
        FetchBound(lista, r.next, outcomes[1..]);
        RankBounds(lista, r.next);
      }
    }
  }

  /** Every id of `f` is in the queue at or after position `e`. */
  predicate FromQueue(lista: seq<int>, e: nat, f: seq<int>)
    requires e <= |lista|
  {
    forall k :: 0 <= k < |f| ==> f[k] in lista[e..]
  }

  predicate NonDecreasing(f: seq<int>)
  {
    forall a, b :: 0 <= a < b < |f| ==> f[a] <= f[b]
  }

  /**
   * The ids fetched come from the queue at or after the current position,
   * in non-decreasing order: an item passed is never fetched again.
   */
  lemma {:induction false} RunFetchesInOrder(lista: seq<int>, s: State, outcomes: seq<Outcome>)
    requires Inv(lista, s)
    ensures FromQueue(lista, s.elem, RunSpec(lista, s, outcomes).fetched)
    ensures NonDecreasing(RunSpec(lista, s, outcomes).fetched)
    decreases |outcomes|
  {
    if Continues(lista, s) && |outcomes| > 0 {
      StepPreservesInv(lista, s, outcomes[0]);
      var r := StepSpec(lista, s, outcomes[0]);
      var first := lista[s.elem];
      if !r.broke {
        RunFetchesInOrder(lista, r.next, outcomes[1..]);
        StepAttempt(lista, s, outcomes[0]);
        var rest := RunSpec(lista, r.next, outcomes[1..]).fetched;
        FromQueueLater(lista, s.elem, r.next.elem, rest);
        ConsInOrder(first, rest);
        assert RunSpec(lista, s, outcomes).fetched == [first] + rest;
      }
    }
  }

  /** What lies at or after a later position lies at or after an earlier one, and not below its item. */
  lemma FromQueueLater(lista: seq<int>, e: nat, e': nat, f: seq<int>)
    requires WorkQueue.Increasing(lista)
    requires e <= e' <= |lista| && e < |lista|
    requires FromQueue(lista, e', f)
    ensures FromQueue(lista, e, f)
    ensures forall k :: 0 <= k < |f| ==> lista[e] <= f[k]
  {
    forall k | 0 <= k < |f|
      ensures f[k] in lista[e..] && lista[e] <= f[k]
    {
      var x := f[k];
      assert x in lista[e'..];
      var i :| 0 <= i < |lista[e'..]| && lista[e'..][i] == x;
      assert lista[e' + i] == x;
      assert lista[e..][e' + i - e] == x;
    }
  }

  /** A non-decreasing sequence stays so with a smaller first element in front. */
  lemma ConsInOrder(first: int, rest: seq<int>)
    requires NonDecreasing(rest)
    requires forall k :: 0 <= k < |rest| ==> first <= rest[k]
    ensures NonDecreasing([first] + rest)
  {
    var f := [first] + rest;
    forall a, b | 0 <= a < b < |f|
      ensures f[a] <= f[b]
    {
      assert f[b] == rest[b - 1];
      if a > 0 {
        assert f[a] == rest[a - 1];
      }
    }
  }

  /** `intento404` never decreases over a run. */
  lemma {:induction false} Run404Monotone(lista: seq<int>, s: State, outcomes: seq<Outcome>)
    requires Inv(lista, s)
    ensures RunSpec(lista, s, outcomes).final.intento404 >= s.intento404
    decreases |outcomes|
  {
    if Continues(lista, s) && |outcomes| > 0 {
      StepPreservesInv(lista, s, outcomes[0]);
      Step404(lista, s, outcomes[0]);
      var r := StepSpec(lista, s, outcomes[0]);
      if !r.broke {
        Run404Monotone(lista, r.next, outcomes[1..]);
      }
    }
  }

  /** `n` copies of `x`: the same outcome on every pass, or the same id fetched on every pass. */
  function Repeat<T>(x: T, n: nat): (r: seq<T>)
    ensures |r| == n && forall k :: 0 <= k < n ==> r[k] == x
  {
    if n == 0 then [] else [x] + Repeat(x, n - 1)
  }

  /**
   * An item answered with server errors on every attempt left is passed
   * without ever reaching the extractor: `elem` moves one on, `intento` is
   * back to 1, and neither dictionary changes.
   */
  lemma {:induction false} ServerErrorsSkipItem(lista: seq<int>, s: State, web: Response)
    requires Continues(lista, s)
    requires 500 <= web.status < 600
    ensures var r := RunSpec(lista, s, Repeat(Received(web), MAX_REINTENTOS + 1 - s.intento));
      && r.final.elem == s.elem + 1 && r.final.intento == 1
      && r.final.scrapJson == s.scrapJson && r.final.incidencias == s.incidencias
      && r.final.repeticion && !r.broke
      && |r.fetched| == MAX_REINTENTOS + 1 - s.intento
      && (forall k :: 0 <= k < |r.fetched| ==> r.fetched[k] == lista[s.elem])
      && Sum(r.pauses) == Backoff.TotalDelay(Backoff.ServerError, s.intento, MAX_REINTENTOS)
    decreases MAX_REINTENTOS - s.intento
  {
    var os := Repeat(Received(web), MAX_REINTENTOS + 1 - s.intento);
    var step := StepSpec(lista, s, Received(web));
    var t := step.next;
    var r := RunSpec(lista, t, os[1..]);
    assert RunSpec(lista, s, os).pauses == [step.pause] + r.pauses;
    if s.intento < MAX_REINTENTOS {
      assert os[1..] == Repeat(Received(web), MAX_REINTENTOS + 1 - t.intento);
      ServerErrorsSkipItem(lista, t, web);
    } else {
      assert os[1..] == [];
    }
    SumCons(step.pause, r.pauses);
  }

  /**
   * An item answered with client errors on all of its attempts left, while
   * `intento404` is below `MAX_REINTENTOS_404`: the item is fetched once per
   * attempt, each wait grows with the attempt, and the loop goes on at the
   * next item with attempt 1 and `intento404` one higher.
   */
  lemma {:induction false} ClientErrorsPassItem(lista: seq<int>, s: State, web: Response, rest: seq<Outcome>)
    requires Continues(lista, s)
    requires 400 <= web.status < 500 && s.intento404 < MAX_REINTENTOS_404
    ensures RunSpec(lista, s, Repeat(Received(web), MAX_REINTENTOS + 1 - s.intento) + rest)
      == Prepend(Repeat(lista[s.elem], MAX_REINTENTOS + 1 - s.intento),
                 ClientDelays(s.intento),
                 RunSpec(lista, s.(intento := 1, intento404 := s.intento404 + 1, elem := s.elem + 1), rest))
    decreases MAX_REINTENTOS - s.intento
  {
    var n := MAX_REINTENTOS + 1 - s.intento;
    var os := Repeat(Received(web), n) + rest;
    var id := lista[s.elem];
    var pause := Backoff.Delay(Backoff.ClientError, s.intento);
    var after := s.(intento := 1, intento404 := s.intento404 + 1, elem := s.elem + 1);
    ClientStep(lista, s, web);
    var t := StepSpec(lista, s, Received(web)).next;
    assert os[0] == Received(web);
    RunUnfold(lista, s, os);
    if s.intento < MAX_REINTENTOS {
      assert os[1..] == Repeat(Received(web), MAX_REINTENTOS + 1 - t.intento) + rest;
      ClientErrorsPassItem(lista, t, web, rest);
      assert t.(intento := 1, intento404 := t.intento404 + 1, elem := t.elem + 1) == after;
      PrependTwice([id], [pause], Repeat(id, n - 1), ClientDelays(s.intento + 1), RunSpec(lista, after, rest));
      assert Repeat(id, n) == [id] + Repeat(id, n - 1);
    } else {
      assert os[1..] == rest;
      assert t == after;
      assert Repeat(id, n) == [id];
    }
  }

  /** A 4xx below both maxima: the attempt moves on, or the item passes with `intento404` one up. */
  lemma ClientStep(lista: seq<int>, s: State, web: Response)
    requires Continues(lista, s)
    requires 400 <= web.status < 500 && s.intento404 < MAX_REINTENTOS_404
    ensures StepSpec(lista, s, Received(web)) == StepResult(
      if s.intento < MAX_REINTENTOS then s.(intento := s.intento + 1)
      else s.(intento := 1, intento404 := s.intento404 + 1, elem := s.elem + 1),
      Backoff.Delay(Backoff.ClientError, s.intento), false)
    ensures ClientDelays(s.intento) == [Backoff.Delay(Backoff.ClientError, s.intento)] + ClientDelays(s.intento + 1)
  {
    assert s.(repeticion := true) == s;
  }

  lemma PrependTwice(f: seq<int>, p: seq<int>, f': seq<int>, p': seq<int>, r: RunResult)
    ensures Prepend(f, p, Prepend(f', p', r)) == Prepend(f + f', p + p', r)
  {
    assert f + (f' + r.fetched) == (f + f') + r.fetched;
    assert p + (p' + r.pauses) == (p + p') + r.pauses;
  }

  /**
   * Three items in a row answered with client errors from their first
   * attempt while no exhaustion has been counted yet (as at the start of a
   * session): the first two are passed after `MAX_REINTENTOS` fetches each,
   * and the third exhaustion `break`s the loop on the third item.
   */
  lemma ThirdExhaustionBreaks(lista: seq<int>, s: State, web: Response, rest: seq<Outcome>)
    requires Continues(lista, s) && s.elem + 2 < |lista|
    requires s.intento == 1 && s.intento404 == 1
    requires 400 <= web.status < 500
    ensures var n := MAX_REINTENTOS + 1 - s.intento;
      var o := Repeat(Received(web), n);
      var r := RunSpec(lista, s, o + (o + (o + rest)));
      && r.broke && r.final.elem == s.elem + 2 && r.final.intento404 == MAX_REINTENTOS_404
      && r.fetched == Repeat(lista[s.elem], n) + Repeat(lista[s.elem + 1], n) + Repeat(lista[s.elem + 2], n)
  {
    var n := MAX_REINTENTOS + 1 - s.intento;
    var o := Repeat(Received(web), n);
    var s1 := s.(intento404 := 2, elem := s.elem + 1);
    var s2 := s.(intento404 := 3, elem := s.elem + 2);
    assert s.(intento := 1, intento404 := s.intento404 + 1, elem := s.elem + 1) == s1;
    assert s1.(intento := 1, intento404 := s1.intento404 + 1, elem := s1.elem + 1) == s2;
    ClientErrorsPassItem(lista, s, web, o + (o + rest));
    ClientErrorsPassItem(lista, s1, web, o + rest);
    ClientErrorsHalt(lista, s2, web, rest);
    var r2 := RunSpec(lista, s2, o + rest);
    var r1 := RunSpec(lista, s1, o + (o + rest));
    var r := RunSpec(lista, s, o + (o + (o + rest)));
    assert r1 == Prepend(Repeat(lista[s.elem + 1], n), ClientDelays(1), r2);
    assert r == Prepend(Repeat(lista[s.elem], n), ClientDelays(1), r1);
    var f0, f1 := Repeat(lista[s.elem], n), Repeat(lista[s.elem + 1], n);
    assert r.fetched == f0 + (f1 + r2.fetched);
    assert f0 + (f1 + r2.fetched) == f0 + f1 + r2.fetched;
  }

  /** One pass that does not `break`, peeled off the front of a run. */
  lemma RunUnfold(lista: seq<int>, s: State, outcomes: seq<Outcome>)
    requires Continues(lista, s) && |outcomes| > 0
    requires !StepSpec(lista, s, outcomes[0]).broke
    ensures RunSpec(lista, s, outcomes)
      == Prepend([lista[s.elem]], [StepSpec(lista, s, outcomes[0]).pause],
                 RunSpec(lista, StepSpec(lista, s, outcomes[0]).next, outcomes[1..]))
  {
  }

  /**
   * One pass of the loop as the driver performs it: the id fetched and the
   * wait are appended, and either the run ends on a `break` or what is left
   * of it continues from the new state.
   */
  lemma RunStep(lista: seq<int>, s: State, outcomes: seq<Outcome>, fetched: seq<int>, pauses: seq<int>, total: RunResult)
    requires Continues(lista, s) && |outcomes| > 0
    requires total == Prepend(fetched, pauses, RunSpec(lista, s, outcomes))
    ensures var r := StepSpec(lista, s, outcomes[0]);
      var fetched', pauses' := fetched + [lista[s.elem]], pauses + [r.pause];
      && (r.broke ==> total == RunResult(r.next, fetched', pauses', true))
      && (!r.broke ==> total == Prepend(fetched', pauses', RunSpec(lista, r.next, outcomes[1..])))
  {
    var r := StepSpec(lista, s, outcomes[0]);
    if !r.broke {
      PrependTwice(fetched, pauses, [lista[s.elem]], [r.pause], RunSpec(lista, r.next, outcomes[1..]));
    }
  }

  /**
   * The same once `intento404` is at `MAX_REINTENTOS_404`: the last attempt
   * `break`s the loop on that item, whatever outcomes would follow.
   */
  lemma {:induction false} ClientErrorsHalt(lista: seq<int>, s: State, web: Response, rest: seq<Outcome>)
    requires Continues(lista, s)
    requires 400 <= web.status < 500 && s.intento404 == MAX_REINTENTOS_404
    ensures var r := RunSpec(lista, s, Repeat(Received(web), MAX_REINTENTOS + 1 - s.intento) + rest);
      && r.broke && r.final.elem == s.elem && r.final.intento404 == MAX_REINTENTOS_404
      && r.fetched == Repeat(lista[s.elem], MAX_REINTENTOS + 1 - s.intento)
    decreases MAX_REINTENTOS - s.intento
  {
    var n := MAX_REINTENTOS + 1 - s.intento;
    var os := Repeat(Received(web), n) + rest;
    var r := StepSpec(lista, s, Received(web));
    var id := lista[s.elem];
    assert os[0] == Received(web);
    if s.intento < MAX_REINTENTOS {
      assert os[1..] == Repeat(Received(web), MAX_REINTENTOS + 1 - r.next.intento) + rest;
      ClientErrorsHalt(lista, r.next, web, rest);
      assert Repeat(id, n) == [id] + Repeat(id, n - 1);
    } else {
      assert Repeat(id, n) == [id];
    }
  }

  /** The client-error waits of attempts `from` .. `MAX_REINTENTOS`. */
  function ClientDelays(from: int): seq<int>
    decreases MAX_REINTENTOS - from
  {
    if from > MAX_REINTENTOS then []
    else [Backoff.Delay(Backoff.ClientError, from)] + ClientDelays(from + 1)
  }

  /** The seconds a sequence of waits adds up to. */
  function Sum(pauses: seq<int>): int
  {
    if pauses == [] then 0 else pauses[0] + Sum(pauses[1..])
  }

  lemma SumCons(d: int, pauses: seq<int>)
    ensures Sum([d] + pauses) == d + Sum(pauses)
  {
    assert ([d] + pauses)[1..] == pauses;
  }

  /** The client-error waits of one item add up to the total delay of its attempts left. */
  lemma {:induction false} ClientDelaysTotal(from: int)
    ensures Sum(ClientDelays(from)) == Backoff.TotalDelay(Backoff.ClientError, from, MAX_REINTENTOS)
    decreases MAX_REINTENTOS - from
  {
    if from <= MAX_REINTENTOS {
      ClientDelaysTotal(from + 1);
      SumCons(Backoff.Delay(Backoff.ClientError, from), ClientDelays(from + 1));
    }
  }

  /**
   * An item given up after client errors on all of its attempts from the
   * first keeps the loop asleep for 55 client-error bases, 275 seconds.
   */
  lemma ClientItemWaits()
    ensures Sum(ClientDelays(1)) == 55 * Backoff.BaseSeconds(Backoff.ClientError) == 275
  {
    ClientDelaysTotal(1);
    Backoff.TotalDelayIsTriangular(Backoff.ClientError, MAX_REINTENTOS);
  }

  /**
   * An item answered with server errors on all of its attempts from the
   * first keeps the loop asleep for 55 server-error bases, 55 hours.
   */
  lemma ServerItemWaits(lista: seq<int>, s: State, web: Response)
    requires Continues(lista, s) && s.intento == 1
    requires 500 <= web.status < 600
    ensures Sum(RunSpec(lista, s, Repeat(Received(web), MAX_REINTENTOS + 1 - s.intento)).pauses)
      == 55 * Backoff.BaseSeconds(Backoff.ServerError) == 55 * 3600
  {
    ServerErrorsSkipItem(lista, s, web);
    Backoff.TotalDelayIsTriangular(Backoff.ServerError, MAX_REINTENTOS);
  }
}
