/** The records the two scanners return, reduced to the fields the page logic
    reads. A TypeScript field that may be missing from the JSON at run time is
    an `Option`. */
module Records {
  import opened Wrappers

  /** One alert of the general scan (`ScanResult`). `id` keys the accordion. */
  datatype ScanResult = ScanResult(
    id: string,
    name: Option<string>,
    alert: Option<string>,
    risk: Option<string>,
    confidence: Option<string>)

  /** One SQL-injection finding (`ScanSqlMapRequest` on the backend,
      `SqlmapResult` on the page). The source calls the first field `type`,
      a reserved word here, so it is `kind`. */
  datatype SqlmapFinding = SqlmapFinding(kind: string, title: string, payload: string)
}
