/**
 * The records the page extractor (`rastrearHtml`) returns: an attribute
 * map and an error map, both keyed by field name.
 */
module Attributes {
  import opened Wrappers
  import Icon

  /** The sentinel a field takes when its extraction fails. */
  const NA: string := "na"

  /** One tracker entry, `{name: [purposes]}`. */
  datatype Tracker = Tracker(name: string, purposes: seq<string>)

  /** The values a field can hold once written as JSON. */
  datatype Value =
    | Text(s: string)
    | Number(n: int)
    | Texts(items: seq<string>)
    | Trackers(entries: seq<Tracker>)
    | Pixels(quads: seq<Icon.Quad>)

  /** `atributos`: field name to value. */
  type Record = map<string, Value>

  /** `error`: field name to the message of the exception it raised. */
  type ErrorMap = map<string, string>

  /**
   * What the extractor hands back for one page. `app` is `None` only on the
   * branch the crawl driver guards with `app != None`.
   */
  datatype Extraction = Extraction(app: Option<Record>, error: ErrorMap)

  /** `TOLERANCIA_ERRORES`. */
  const TOLERANCE: nat := 3
}
