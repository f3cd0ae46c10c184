# exodusWebScraping crawl engine, modelled in Dafny

This project models the crawl-and-resume engine of the exodus-privacy
report scraper (`src/exodusWS.py`), together with the pieces of its page and
icon extractors that need no library.

A session (`rastreo`) does the following:

- It loads the dataset of reports already scraped and turns each key into an
  integer id.
- It builds the queue of ids in `inicio .. inicio + limite - 1` that are not
  treated yet.
- It fetches one report page per loop pass. How the fetch ends moves the
  attempt counter (`intento`), the client-error exhaustion counter
  (`intento404`), the continue flag (`repeticion`) and the queue position
  (`elem`), and decides how long the scraper sleeps.
- On status 200 it files the page's error map in `incidencias`, and files the
  record in `scrap_json` when the error map is within tolerance.
- At the end it merges `scrap_json` into the loaded dataset and names the
  dataset and incident files.

The status branches follow the status-code classes of section 15 of RFC 9110
(2xx, 3xx, 4xx, 5xx).

Modules:

- `Crawl` states one loop pass (`StepSpec`) and a whole loop (`RunSpec`) as
  functions over a `State` value. It proves the loop invariant `Inv` and the
  properties of a pass and of a run.
- `Driver.Crawler` is a class whose fields are the loop variables and the two
  dictionaries. Its `Step` and `Run` methods update them in place and are
  proved equal to `StepSpec` and `RunSpec`.
- `Session` covers loading, the queue, the merge and the file names.
  `Session.Rastreo` runs a whole session through a `Crawler`.
- `WorkQueue` builds the queue (`crearListaElementosATratar`).
- `Backoff` holds the delay arithmetic of `gestionarTiempos`.
- `Issuer`, `Permissions` and `Dates` hold the string and list logic of
  `rastrearHtml`.
- `Icon` holds the channel normalisation of `obtenerIcono`.
- `Text` and `Decimal` give the Python string operations used (`find`, `in`,
  clamped slices, `str(int)`, `int(str)`).

Where the code and the comments beside it disagree, the model follows the
code:

- Every exception leaves `web` as `None`, so the final `else` branch
  (src/exodusWS.py:452-457) also runs after each handler. A connection error
  or a timeout therefore raises `intento`, or moves to the next item, besides
  sleeping. It is not a plain retry of the same attempt.
- The tolerance test counts the entries of the error map (`len(error)`). The
  comment beside the constant speaks of `'na'` values.
- A 3xx response sets `repeticion` to false and so ends the whole crawl. The
  comment says only that this URL is abandoned.
- The issuer values are cut at the first comma. The inline comment says that
  names such as "Google, Inc." keep their comma (`Issuer.CommaCutsValue`).
- A dataset file that cannot be read, or that has a single key `int`
  rejects, loads as empty (src/exodusWS.py:29-31). The write at the end
  (src/exodusWS.py:461-465) then replaces that file with this session's
  records only, so every entry it held is lost
  (`Session.UnreadableDatasetIsReplaced`).
- A status below 200 or from 600 up matches no branch. That pass changes
  nothing (`Crawl.StepStalls`), so only progressing outcomes are bounded.

## Model

| member | source | states |
|---|---|---|
| WorkQueue.Build | src/exodusWS.py:49-50 | every id of the queue is in the range and untreated; every untreated id of the range is in it; it strictly ascends, so each id appears once; it is empty when `limite <= 0` and never longer than the range |
| WorkQueue.BuildUntreated | src/exodusWS.py:49-50 | with nothing treated, the queue is exactly `inicio, inicio + 1, ...`, of length `limite` (0 if negative) |
| Backoff.BaseSeconds | src/exodusWS.py:64-69 | every base of the `MOTIVOS` table is positive and at most an hour; the hour-long waits are exactly those for connection and server errors; only the standard and client-error waits are under 10 s |
| Backoff.Delay | src/exodusWS.py:71 | the delay is positive exactly for a positive attempt, zero exactly for attempt 0, and never more than an hour per attempt |
| Backoff.DelayPositive | src/exodusWS.py:64-71 | every delay from attempt 1 on is at least its positive base |
| Backoff.DelayGrowsWithAttempt | src/exodusWS.py:64-71 | for a fixed reason the delay never shrinks as the attempt grows; each attempt adds exactly one base |
| Backoff.TotalDelayIsTriangular | src/exodusWS.py:64-71 | the delays of attempts 1 .. n add up to base * n(n+1)/2 |
| Backoff.TotalDelaySplit | src/exodusWS.py:71 | a total of delays is the total up to the previous attempt plus the last delay |
| Decimal.Show | src/exodusWS.py:440 | `str(n)` is non-empty, begins with a digit exactly when `n >= 0`, otherwise with a minus sign and at least one digit, and has only digits after its first character |
| Decimal.ParseInt | src/exodusWS.py:28 | `int(x)` fails on the empty string; what it accepts begins with a digit or a sign followed by digits; a negative result comes from a minus sign; a string of digits reads as its decimal value |
| Decimal.ParseShow | src/exodusWS.py:28 | `int(str(n)) == n`: reading back a key written by `str` gives the id |
| Decimal.ShowDistinct | src/exodusWS.py:440-443 | distinct ids get distinct dictionary keys |
| Decimal.ShowNatDigits | src/exodusWS.py:28 | `str` of a natural number is a non-empty string of digits whose value is that number |
| Decimal.ShowAlphabet | src/exodusWS.py:467 | `str(n)` holds only digits and a minus sign, never an underscore |
| Text.Find | src/exodusWS.py:280-281 | `s.find(sub)` is non-negative exactly when `sub` occurs, and is then the first occurrence; otherwise -1 |
| Text.FindFrom | src/exodusWS.py:280-281 | the first occurrence at or after a position, or -1 when there is none |
| Text.In | src/exodusWS.py:279 | `sub in s` holds exactly when `sub` occurs in `s` |
| Text.Suffix | src/exodusWS.py:281 | `s[i:]` has the elements of `s` from `i`, and is empty past the end |
| Text.UpToComma | src/exodusWS.py:280-283 | the cut at the first comma is a comma-free prefix that is the whole text or stops just before a comma |
| Text.FirstCommaAt | src/exodusWS.py:280-281 | when the text has a comma, `find(',')` points at it and no comma comes before it |
| Issuer.ValueAfter | src/exodusWS.py:279-285 | `'na'` when the key is missing; otherwise a comma-free prefix of the text past the key's offset, ending at its first comma or at the end |
| Issuer.EqualsForm | src/exodusWS.py:279-292 | the `key=value` values never contain a comma, and are `'na'` when their key is missing |
| Issuer.ColonForm | src/exodusWS.py:294-307 | the `Key: value` values never contain a comma, and are `'na'` when their key is missing |
| Issuer.ApplyIssuer | src/exodusWS.py:278-307 | only Developer and Country can change; both are set when the text has `=` or `:`; with a `:` they are the values of the `:` form |
| Issuer.NoSeparatorLeavesFields | src/exodusWS.py:278-307 | without `=` and `:` the record is left exactly as it was: neither Developer nor Country is set |
| Issuer.IssuerFieldsSet | src/exodusWS.py:278-307 | with a separator both fields are set; the `:` form decides them whenever the text has a `:`, the `=` form otherwise; every other field is kept |
| Issuer.IssuerValuesHaveNoComma | src/exodusWS.py:280-305 | Developer and Country never contain a comma |
| Issuer.CommaCutsValue | src/exodusWS.py:280-281 | a value followed by a comma comes out as the text before that comma, e.g. "Google" for "Google, Inc." |
| Permissions.FirstIndex | src/exodusWS.py:259-260 | the position of the first appearance of a text |
| Permissions.Deduplicate | src/exodusWS.py:257-262 | the list has no repeats, holds exactly the texts that appear, and follows the order of their first appearance |
| Dates.AnalysisDate | src/exodusWS.py:219-220 | a date exists exactly for a match with a month in the table; it is the day, a dash, two characters, a dash and the year, `|day| + 4 + |year|` long |
| Dates.MonthTableInverse | src/exodusWS.py:199 | each month number is two digits and the table is invertible |
| Dates.AnalysisDateRoundTrip | src/exodusWS.py:219-220 | a date is produced exactly for a known month name; it is `|day| + 4 + |year|` long and splits back into day, month and year |
| Icon.GrayPixel | src/exodusWS.py:98-106 | a byte gives byte components; the pixel is transparent exactly for 0 and 255; any value but 0 gives black with alpha `255 - p` |
| Icon.ColorPixel | src/exodusWS.py:108-113 | the first three channels are kept; three channels get alpha 255; four channels are kept as they are; bytes give bytes |
| Icon.Chunk4 | src/exodusWS.py:115 | `reshape(-1, 4)` gives a quarter as many groups as values |
| Icon.ConcatLength | src/exodusWS.py:115 | the flat stream of n pixels of c channels has n * c values |
| Icon.ConcatAt | src/exodusWS.py:115 | channel k of pixel n is value n * c + k of the flat stream |
| Icon.FourChannelChunks | src/exodusWS.py:115 | with four channels the groups of four are exactly the pixels |
| Icon.RemapGray | src/exodusWS.py:96-107 | the nested loop gives 1024 pixels; 0 becomes (255,255,255,0); any other p becomes (0,0,0,255-p) |
| Icon.Normalise | src/exodusWS.py:96-115 | one-channel and 3- or 4-channel images give 1024 RGBA pixels, with alpha 255 added to 3 channels; other channel counts give the groups of four of the value stream |
| Crawl.Retry | src/exodusWS.py:452-457 | the final `else`: one more attempt on the same item below 10 attempts, otherwise attempt 1 at the next item; the attempt stays in 1..10; nothing else changes |
| Crawl.RecordPage | src/exodusWS.py:436-451 | status 200 files the error map under the item's key, and the record there iff there is one and `len(error) <= 3` (or the key already had one); `elem` advances, `intento` is 1, no `break`; the wait is the standard 3 s only when a record came back |
| Crawl.ClassifyStatus | src/exodusWS.py:399-451 | `elem` advances by at most one; a `break` happens only on a 4xx at the last attempt with `intento404` at 3, and then without advancing |
| Crawl.StepSpec | src/exodusWS.py:376-457 | one pass: `elem` advances by at most one; only a client error can `break`, and then on the same item |
| Crawl.RunSpec | src/exodusWS.py:375-457 | one fetch and one wait per pass and per outcome at most; `elem` never goes back; a `break` follows at least one fetch; a run that neither `break`s nor uses up its outcomes ends with the loop condition false |
| Crawl.Inv | src/exodusWS.py:360-457 | every dataset key is the key of an item already passed |
| Crawl.InitialInv | src/exodusWS.py:360-373 | the values set before the loop satisfy the loop invariant |
| Crawl.CurrentKeyIsNew | src/exodusWS.py:440-443 | the current item's key is in neither dictionary yet, since the queue ascends |
| Crawl.ScrapKeyParses | src/exodusWS.py:442 | every `scrap_json` key is the `str` of an id already passed and reads back as that id |
| Crawl.KeysOfExtend | src/exodusWS.py:444 | passing one more item adds exactly its key to the keys of the items passed |
| Crawl.KeysOfGrow | src/exodusWS.py:444 | the keys of the items passed only grow as `elem` grows |
| Crawl.AdvanceKeepsInv | src/exodusWS.py:417-419 | moving to the next item at attempt 1 keeps the invariant |
| Crawl.RetryKeepsInv | src/exodusWS.py:453-457 | the final `else` (one more attempt, or the next item) keeps the invariant |
| Crawl.CoveredInsert | src/exodusWS.py:439-443 | filing an error map, and the record only within tolerance, keeps every dataset key covered by an incident within tolerance |
| Crawl.PassedInsert | src/exodusWS.py:440-444 | filing the current key and advancing keeps `incidencias` to keys of passed items |
| Crawl.RecordPageKeepsInv | src/exodusWS.py:436-451 | the status-200 branch keeps the invariant |
| Crawl.StepPreservesInv | src/exodusWS.py:375-457 | every pass keeps the invariant: queue ascending, `intento` in 1..10, `intento404` in 1..3, incidents only for passed items, every dataset entry with an incident within tolerance |
| Crawl.StepAttempt | src/exodusWS.py:404-419 | `intento` goes one up on the same item while below 10, or back to 1 with the next item, or stays only on a `break` or a status outside 200..599 |
| Crawl.Step404 | src/exodusWS.py:413-421 | `intento404` never decreases; it rises exactly on a 4xx exhaustion below 3; the pass `break`s exactly on a 4xx exhaustion at 3, without advancing |
| Crawl.StepStops | src/exodusWS.py:389-397 | `repeticion` ends false exactly after a proxy, SSL or unclassified exception or a 3xx; a 3xx also advances with attempt 1 and no wait |
| Crawl.StepRecordsPage | src/exodusWS.py:436-447 | status 200 always files the error map; it files the record iff `len(error) <= 3`; nothing else changes; `elem` advances by one, `intento` is 1, the wait is 3 s |
| Crawl.StepStalls | src/exodusWS.py:399-436 | a status outside 200..599 changes nothing and waits nothing |
| Crawl.RankBounds | src/exodusWS.py:375 | the termination measure is non-negative, and positive while items are left |
| Crawl.StepProgress | src/exodusWS.py:375-457 | a pass with a progressing outcome `break`s, clears `repeticion` or strictly lowers the measure |
| Crawl.RunPreservesInv | src/exodusWS.py:375-457 | the whole loop keeps the invariant |
| Crawl.RunEnds | src/exodusWS.py:375 | the loop never ends on the `intento` test; it ends on the queue, `repeticion`, a `break` or the outcomes running out; one fetch and one wait per pass |
| Crawl.FetchBound | src/exodusWS.py:375-457 | with progressing outcomes the loop fetches at most 10 times per item left |
| Crawl.RunFetchesInOrder | src/exodusWS.py:375-377 | fetched ids come from the queue at or after the current position, in non-decreasing order |
| Crawl.FromQueueLater | src/exodusWS.py:375-377 | ids at or after a later queue position are at or after an earlier one, and not below its item |
| Crawl.ConsInOrder | src/exodusWS.py:375-377 | prefixing a non-decreasing run of fetches with a smaller id keeps it non-decreasing |
| Crawl.Run404Monotone | src/exodusWS.py:413-421 | `intento404` never decreases over a run |
| Crawl.ServerErrorsSkipItem | src/exodusWS.py:400-408 | an item that gets 5xx on all its attempts left is fetched once per attempt and passed, with both dictionaries unchanged; its waits add up to the total server-error delay of those attempts |
| Crawl.ServerItemWaits | src/exodusWS.py:64-71 | an item answered with 5xx from its first attempt sleeps 55 server-error bases, 55 hours, before it is passed |
| Crawl.ClientDelaysTotal | src/exodusWS.py:409-412 | the client-error waits of an item's attempts left add up to the total client-error delay of those attempts |
| Crawl.ClientItemWaits | src/exodusWS.py:64-71 | an item answered with 4xx on all ten attempts sleeps 55 client-error bases, 275 s |
| Crawl.ClientErrorsPassItem | src/exodusWS.py:409-419 | an item that gets 4xx on all its attempts left, below 3 exhaustions, is fetched once per attempt with growing waits; the run goes on at the next item with `intento404` one higher |
| Crawl.ClientStep | src/exodusWS.py:409-419 | one 4xx pass below both maxima: the attempt goes up, or the item passes with `intento404` one higher, after the client-error wait |
| Crawl.ClientErrorsHalt | src/exodusWS.py:416-421 | at 3 exhaustions, the item's last attempt `break`s on that item, whatever follows |
| Crawl.ThirdExhaustionBreaks | src/exodusWS.py:413-421 | three items answered with 4xx from a fresh counter: two are passed after 10 fetches each, and the third exhaustion `break`s on the third item after 30 fetches |
| Crawl.RunUnfold | src/exodusWS.py:375-457 | a pass that does not `break` is followed by the rest of the loop from its new state |
| Crawl.RunStep | src/exodusWS.py:375-457 | one pass appends its id and wait, and either ends the loop on a `break` or leaves the rest of the loop from the new state |
| Driver.Crawler.constructor | src/exodusWS.py:358-373 | the queue is the one built from the treated ids; the counters start at 1, `repeticion` true, both dictionaries empty |
| Driver.Crawler.NextAttempt | src/exodusWS.py:453-457 | one more attempt below 10, otherwise attempt 1 at the next item |
| Driver.Crawler.Record | src/exodusWS.py:436-451 | the in-place status-200 branch does what `Crawl.RecordPage` says |
| Driver.Crawler.Classify | src/exodusWS.py:399-451 | the separate status `if`s, in place, do what `Crawl.ClassifyStatus` says |
| Driver.Crawler.Step | src/exodusWS.py:376-457 | one pass in place equals `Crawl.StepSpec` on the old state and keeps the invariant |
| Driver.Crawler.Run | src/exodusWS.py:375-457 | the loop in place ends in the state, fetches, waits and `break` flag that `Crawl.RunSpec` gives, and keeps the invariant |
| Session.LoadDataset | src/exodusWS.py:25-33 | a missing file, or any key that is not an integer, gives an empty dataset and no treated ids; otherwise the dataset itself, and its ids are exactly the values of its keys |
| Session.Merge | src/exodusWS.py:461 | the merged keys are the union; the session's entries win; other loaded entries are kept |
| Session.DatasetFileName | src/exodusWS.py:348-355 | an `exodus...json` name that carries `NoIcon` right after `exodus` exactly when icons go to files |
| Session.IncidentFileName | src/exodusWS.py:467 | an `incidencias_...json` name |
| Session.FileNamesDistinct | src/exodusWS.py:348-355 | the two dataset variants never share a file, and neither is ever an incident file |
| Session.SessionSpec | src/exodusWS.py:332-468 | a session writes two different files; the dataset written has the loaded keys and the accepted ones, each reading back as an id; at most one fetch per outcome |
| Session.WrittenKeysParse | src/exodusWS.py:461 | every key of the merged dataset reads back as an id |
| Session.UnreadableDatasetIsReplaced | src/exodusWS.py:29-31 | an unreadable dataset file, or one with a key `int` rejects, is rewritten with this session's records only; an entry of that file is lost |
| Session.Rastreo | src/exodusWS.py:332-468 | the in-place session produces what the session specification gives |
| Session.NeverRefetches | src/exodusWS.py:358-377 | only ids of the range are fetched, never one loaded as treated, in non-decreasing order |
| Session.MergeKeepsLoaded | src/exodusWS.py:461 | no accepted key is a loaded key, so the merge keeps every loaded entry unchanged and its size is the sum of the two |
| Session.ReloadTreatsAccepted | src/exodusWS.py:25-33 | reloading the written dataset keeps every key, and treats every id treated before and every id accepted now |
| Session.SessionFetchBound | src/exodusWS.py:375 | with progressing outcomes a session fetches at most 10 times the size of the range |
| Session.IncidentFileNameInjective | src/exodusWS.py:467 | the incident file name determines `inicio` and `limite`: distinct ranges write distinct files |
| Session.SplitAtUnderscore | src/exodusWS.py:467 | in `str(a) + '_' + t` the number and the tail are read back |
| Session.UnderscoreAt | src/exodusWS.py:467 | the first underscore of `str(n) + '_' + t` is the one right after the number |

## Left out

- `requests.get`, the HTTP header set and the exception classes are not
  modelled. A fetch is an `Outcome` named after the `except` clause that
  catches it. In the `requests` library ProxyError, SSLError and
  ConnectTimeout are subclasses of ConnectionError, so their handlers are
  shadowed in practice. That class hierarchy is not part of this model.
- `time.sleep` is not modelled; only the seconds it would block are (`pause`).
- BeautifulSoup navigation and the `regex` searches of `rastrearHtml` are
  left out. The issuer text, the permission tag texts and the date match
  arrive as values. The count and tracker fields that depend only on those
  libraries are not modelled.
- The uncaught `soup.find(...)['src']` at src/exodusWS.py:314 and the rest of
  the icon path (`imread`, `resize`, its floating point, `savefig`) are not
  modelled. `Icon.Normalise` starts from the resized integer image, and the
  extractor's record is an oracle (`Extraction`).
- `Extraction.app` can be `None` although `rastrearHtml` always returns a
  dict. This keeps the branch at src/exodusWS.py:448-451.
- JSON reading and writing, the `sys.argv` parsing and every `print` are not
  modelled. A dataset file arrives as its parsed contents, or `None` when it
  cannot be read.
- Session.LoadDataset: `int(x)` is modelled as an optional sign followed by
  ASCII digits. Python also accepts surrounding whitespace, underscores
  between digits and non-ASCII digits.
- Crawl.RunSpec: the loop also stops when the supplied outcomes run out.
  The source stops only on its own conditions.
- Crawl.FetchBound: the bound needs every outcome to be an exception or a
  status in 200 .. 599. A status outside that range loops forever in the
  source, as `Crawl.StepStalls` shows.
- Icon.Normalise: for channel counts other than 1, 3 and 4 the result is
  stated as the reshape itself, not per pixel.
- The treated ids are a set. The source keeps a list but only tests
  membership in it.
