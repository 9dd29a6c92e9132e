/** The page: one shared target-URL field and two independent fetch slices,
    one for the general scan (items keyed by their `id`) and one for SQLMap
    (items keyed by their position). */
module App {
  import opened Wrappers
  import opened Records
  import FetchSlice
  import Accordion

  const ScanFailureMessage := "Failed to fetch scan data. Check the console for details."
  const SqlmapFailureMessage := "Failed to fetch SQLMap data. Check the console for details."

  /** The URL the input field starts with. */
  const InitialTarget := "https://todo.putianai.me/"

  type ScanSlice = FetchSlice.Slice<ScanResult, string>
  type SqlmapSlice = FetchSlice.Slice<SqlmapFinding, int>

  datatype Page = Page(target: string, scan: ScanSlice, sqlmap: SqlmapSlice)

  /** The page as first rendered. */
  function Mounted(): Page
  {
    Page(InitialTarget, FetchSlice.Mounted(), FetchSlice.Mounted())
  }

  /** Accordion keys of the rendered scan results. */
  function ScanKeys(rs: seq<ScanResult>): (ks: set<string>)
    ensures forall i :: 0 <= i < |rs| ==> rs[i].id in ks
    ensures forall k :: k in ks ==> exists i :: 0 <= i < |rs| && rs[i].id == k
  {
    set r | r in rs :: r.id
  }

  /** Accordion keys of the rendered SQLMap findings: their indexes. */
  function SqlmapKeys(rs: seq<SqlmapFinding>): (ks: set<int>)
    ensures forall i :: i in ks <==> 0 <= i < |rs|
    decreases |rs|
  {
    if |rs| == 0 then {} else SqlmapKeys(rs[..|rs| - 1]) + {|rs| - 1}
  }

  /** What the user and the network can do to the page. */
  datatype PageEvent =
    | EditTarget(text: string)
    | ClickScan
    | ClickSqlmap
    | ScanResponse(scanResp: FetchSlice.Response<ScanResult>)
    | SqlmapResponse(sqlmapResp: FetchSlice.Response<SqlmapFinding>)
    | ToggleScan(id: string)
    | ToggleSqlmap(index: int)

  /** The event as seen by the scan slice, if it concerns that slice. */
  function ScanEvent(p: Page, e: PageEvent): Option<FetchSlice.Event<ScanResult, string>>
  {
    match e
    case ClickScan => Some(FetchSlice.Click(p.target))
    case ScanResponse(resp) => Some(FetchSlice.Complete(resp))
    case ToggleScan(id) => Some(FetchSlice.ToggleItem(id))
    case _ => None
  }

  /** The event as seen by the SQLMap slice, if it concerns that slice. */
  function SqlmapEvent(p: Page, e: PageEvent): Option<FetchSlice.Event<SqlmapFinding, int>>
  {
    match e
    case ClickSqlmap => Some(FetchSlice.Click(p.target))
    case SqlmapResponse(resp) => Some(FetchSlice.Complete(resp))
    case ToggleSqlmap(i) => Some(FetchSlice.ToggleItem(i))
    case _ => None
  }

  /** The events the page allows in state `p`. */
  predicate PageEnabled(p: Page, e: PageEvent): (ok: bool)
    ensures e.EditTarget? ==> ok
    ensures ok && e.ClickScan? ==> !p.scan.loading
    ensures ok && e.ClickSqlmap? ==> !p.sqlmap.loading
    ensures ok && e.ScanResponse? ==> p.scan.loading
    ensures ok && e.SqlmapResponse? ==> p.sqlmap.loading
    ensures ok && e.ToggleScan? ==> e.id in ScanKeys(p.scan.results)
    ensures ok && e.ToggleSqlmap? ==> 0 <= e.index < |p.sqlmap.results|
  {
    match e
    case EditTarget(_) => true
    case _ =>
      && (match ScanEvent(p, e)
          case Some(se) => FetchSlice.Enabled(p.scan, se, ScanKeys(p.scan.results))
          case None => true)
      && (match SqlmapEvent(p, e)
          case Some(se) => FetchSlice.Enabled(p.sqlmap, se, SqlmapKeys(p.sqlmap.results))
          case None => true)
  }

  /** The effect of one event on the page. The two slices never touch each
      other, and only typing changes the target. */
  function PageStep(p: Page, e: PageEvent): (q: Page)
    ensures ScanEvent(p, e).None? ==> q.scan == p.scan
    ensures SqlmapEvent(p, e).None? ==> q.sqlmap == p.sqlmap
    ensures !e.EditTarget? ==> q.target == p.target
    ensures e.EditTarget? ==> q == p.(target := e.text)
  {
    match e
    case EditTarget(text) => p.(target := text)
    case _ =>
      var scan := match ScanEvent(p, e)
        case Some(se) => FetchSlice.Step(p.scan, se, ScanFailureMessage, Accordion.ObjectPrototypeKeys)
        case None => p.scan;
      var sqlmap := match SqlmapEvent(p, e)
        case Some(se) => FetchSlice.Step(p.sqlmap, se, SqlmapFailureMessage, {})
        case None => p.sqlmap;
      Page(p.target, scan, sqlmap)
  }

  /** Both slices satisfy the slice invariant with their own keys. */
  ghost predicate PageInv(p: Page)
  {
    FetchSlice.Inv(p.scan, ScanKeys) && FetchSlice.Inv(p.sqlmap, SqlmapKeys)
  }

  /** The page starts in a state that satisfies the invariant. */
  lemma MountedInv()
    ensures PageInv(Mounted())
  {
  }

  /** Every allowed event keeps the invariant. */
  lemma PageStepKeepsInv(p: Page, e: PageEvent)
    requires PageInv(p)
    requires PageEnabled(p, e)
    ensures PageInv(PageStep(p, e))
  {
    assert ScanKeys([]) == {};
    assert SqlmapKeys([]) == {};
    match ScanEvent(p, e)
    case Some(se) => FetchSlice.StepKeepsInv(p.scan, se, ScanFailureMessage, Accordion.ObjectPrototypeKeys, ScanKeys);
    case None =>
    match SqlmapEvent(p, e)
    case Some(se) => FetchSlice.StepKeepsInv(p.sqlmap, se, SqlmapFailureMessage, {}, SqlmapKeys);
    case None =>
  }

  /** Clicking "Fetch Scan Data" with an empty field only sets the scan
      slice's validation error; a whitespace-only URL is sent. */
  lemma ClickScanValidation(p: Page)
    requires !p.scan.loading
    ensures p.target == "" ==> PageStep(p, ClickScan) == p.(scan := p.scan.(error := Some(FetchSlice.EmptyUrlMessage)))
    ensures p.target != "" ==> PageStep(p, ClickScan).scan.loading
  {
  }

  /** A complete scan fetch ends with exactly the response and no error, or
      with the scan failure message and no results; the SQLMap slice is the
      same before and after. */
  lemma ScanFetchOutcome(p: Page, resp: FetchSlice.Response<ScanResult>)
    requires !p.scan.loading && p.target != ""
    ensures var q := PageStep(PageStep(p, ClickScan), ScanResponse(resp));
      && q.sqlmap == p.sqlmap
      && !q.scan.loading
      && q.scan.open == map[]
      && (resp.Ok? ==> q.scan.results == resp.data && q.scan.error == None)
      && (resp.Failed? ==> q.scan.results == [] && q.scan.error == Some(ScanFailureMessage))
  {
  }

  /** The same for a SQLMap fetch, which leaves the scan slice alone. */
  lemma SqlmapFetchOutcome(p: Page, resp: FetchSlice.Response<SqlmapFinding>)
    requires !p.sqlmap.loading && p.target != ""
    ensures var q := PageStep(PageStep(p, ClickSqlmap), SqlmapResponse(resp));
      && q.scan == p.scan
      && !q.sqlmap.loading
      && q.sqlmap.open == map[]
      && (resp.Ok? ==> q.sqlmap.results == resp.data && q.sqlmap.error == None)
      && (resp.Failed? ==> q.sqlmap.results == [] && q.sqlmap.error == Some(SqlmapFailureMessage))
  {
  }

  /** After a scan fetch every item is shown closed, except one whose id names
      a member of `Object.prototype` ("toString", "constructor", ...): the
      emptied accordion holds no own entry for it, so it reads as open. */
  lemma ScanItemsAfterFetch(p: Page, resp: FetchSlice.Response<ScanResult>, id: string)
    requires !p.scan.loading && p.target != ""
    ensures var q := PageStep(PageStep(p, ClickScan), ScanResponse(resp));
      Accordion.IsOpen(q.scan.open, id, Accordion.ObjectPrototypeKeys) <==> id in Accordion.ObjectPrototypeKeys
  {
  }

  /** After a SQLMap fetch every finding is shown closed: an index never names
      a prototype member. */
  lemma SqlmapItemsAfterFetch(p: Page, resp: FetchSlice.Response<SqlmapFinding>, i: int)
    requires !p.sqlmap.loading && p.target != ""
    ensures !Accordion.IsOpen(PageStep(PageStep(p, ClickSqlmap), SqlmapResponse(resp)).sqlmap.open, i, {})
  {
  }
}
