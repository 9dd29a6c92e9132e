/** One fetch slice of the page: the loading flag, the error message, the
    result list and the accordion state that `fetchData` (general scan) and
    `fetchSqlmapData` (SQL injection) each drive. The two slices are copies
    of this one module, instantiated with their own result and key types.

    The HTTP call itself is not modelled: its outcome is a parameter, either
    the response array or a failure. */
module FetchSlice {
  import opened Wrappers
  import Accordion

  /** The state of one slice. */
  datatype Slice<T, K> = Slice(loading: bool, error: Option<string>, results: seq<T>, open: map<K, bool>)

  /** The state at mount: idle, no error, nothing fetched, everything closed. */
  function Mounted<T, K>(): Slice<T, K>
  {
    Slice(false, None, [], map[])
  }

  const EmptyUrlMessage := "Target URL cannot be empty."

  /** What the awaited POST produced: the response array, or any failure
      (network error, non-2xx status). */
  datatype Response<T> = Ok(data: seq<T>) | Failed

  /** The synchronous part of a fetch, up to the `await`: the new state and
      whether a request was sent. Only the empty string is rejected. */
  function Begin<T, K>(s: Slice<T, K>, url: string): (r: (Slice<T, K>, bool))
    ensures r.1 <==> url != ""
    ensures !r.1 ==> r.0.error == Some(EmptyUrlMessage)
    ensures !r.1 ==> r.0.loading == s.loading && r.0.results == s.results && r.0.open == s.open
    ensures r.1 ==> r.0 == Mounted().(loading := true)
  {
    if url == "" then (s.(error := Some(EmptyUrlMessage)), false)
    else
      var s1 := s.(loading := true);
      var s2 := s1.(error := None);
      var s3 := s2.(results := []);
      (s3.(open := map[]), true)
  }

  /** The part after the `await`: store the response or the slice's fixed
      failure message, then clear the loading flag. */
  function Settle<T, K>(s: Slice<T, K>, resp: Response<T>, failure: string): (r: Slice<T, K>)
    ensures !r.loading && r.open == s.open
    ensures resp.Ok? ==> r.results == resp.data && r.error == s.error
    ensures resp.Failed? ==> r.results == s.results && r.error == Some(failure)
  {
    var settled :=
      match resp
      case Ok(data) => s.(results := data)
      case Failed => s.(error := Some(failure));
    settled.(loading := false)
  }

  /** A whole fetch with no other event in between. */
  function Fetch<T, K>(s: Slice<T, K>, url: string, resp: Response<T>, failure: string): (r: Slice<T, K>)
    ensures url == "" ==> r == s.(error := Some(EmptyUrlMessage))
    ensures url != "" && resp.Ok? ==> r == Slice(false, None, resp.data, map[])
    ensures url != "" && resp.Failed? ==> r == Slice(false, Some(failure), [], map[])
  {
    var (started, sent) := Begin(s, url);
    if sent then Settle(started, resp, failure) else started
  }

  /** What can happen to a slice: its button is clicked with the URL, its
      pending request completes, or one of its items is toggled. */
  datatype Event<T, K> = Click(url: string) | Complete(resp: Response<T>) | ToggleItem(key: K)

  /** Which events the page allows: the button is disabled while loading, a
      response arrives only for a pending request, and only rendered items
      have a toggle. `shown` is the set of keys of the rendered items. */
  predicate Enabled<T, K>(s: Slice<T, K>, e: Event<T, K>, shown: set<K>): (ok: bool)
    ensures ok && e.Click? ==> !s.loading
    ensures ok && e.Complete? ==> s.loading
    ensures ok && e.ToggleItem? ==> e.key in shown
  {
    match e
    case Click(_) => !s.loading
    case Complete(_) => s.loading
    case ToggleItem(k) => k in shown
  }

  /** The effect of one event. `inherited` holds the keys that read as open
      while absent from the accordion (see `Accordion.IsOpen`). */
  function Step<T, K>(s: Slice<T, K>, e: Event<T, K>, failure: string, inherited: set<K>): (r: Slice<T, K>)
    ensures e.Click? ==> (r.loading <==> s.loading || e.url != "")
    ensures e.Click? && e.url == "" ==> r.error == Some(EmptyUrlMessage)
    ensures e.Complete? ==> !r.loading && r.open == s.open
    ensures e.Complete? && e.resp.Ok? ==> r.results == e.resp.data && r.error == s.error
    ensures e.Complete? && e.resp.Failed? ==> r.results == s.results && r.error == Some(failure)
    ensures e.ToggleItem? ==> r.loading == s.loading && r.error == s.error && r.results == s.results
    ensures e.ToggleItem? ==> (Accordion.IsOpen(r.open, e.key, inherited) <==> !Accordion.IsOpen(s.open, e.key, inherited))
  {
    match e
    case Click(url) => Begin(s, url).0
    case Complete(resp) => Settle(s, resp, failure)
    case ToggleItem(k) => s.(open := Accordion.Toggle(s.open, k, inherited))
  }

  /** What holds of every slice state the page can reach: while a request is
      pending the slice shows nothing but the loading state, and the
      accordion only ever records items that are rendered. */
  ghost predicate Inv<T, K>(s: Slice<T, K>, keysOf: seq<T> -> set<K>)
  {
    && (s.loading ==> s.error == None && s.results == [] && s.open == map[])
    && s.open.Keys <= keysOf(s.results)
  }

  /** Every enabled event keeps the invariant. */
  lemma StepKeepsInv<T, K>(s: Slice<T, K>, e: Event<T, K>, failure: string, inherited: set<K>, keysOf: seq<T> -> set<K>)
    requires keysOf([]) == {}
    requires Inv(s, keysOf)
    requires Enabled(s, e, keysOf(s.results))
    ensures Inv(Step(s, e, failure, inherited), keysOf)
  {
  }

  /** The events `es` can happen one after the other from `s`. */
  ghost predicate Admissible<T, K>(s: Slice<T, K>, es: seq<Event<T, K>>, failure: string, inherited: set<K>, keysOf: seq<T> -> set<K>)
    decreases |es|
  {
    |es| == 0 ||
    (Enabled(s, es[0], keysOf(s.results)) && Admissible(Step(s, es[0], failure, inherited), es[1..], failure, inherited, keysOf))
  }

  /** The state after the events `es`. */
  function Run<T, K>(s: Slice<T, K>, es: seq<Event<T, K>>, failure: string, inherited: set<K>): Slice<T, K>
    decreases |es|
  {
    if |es| == 0 then s else Run(Step(s, es[0], failure, inherited), es[1..], failure, inherited)
  }

  /** Every state reachable from mount satisfies the invariant. */
  lemma {:induction false} RunKeepsInv<T, K>(s: Slice<T, K>, es: seq<Event<T, K>>, failure: string, inherited: set<K>, keysOf: seq<T> -> set<K>)
    requires keysOf([]) == {}
    requires Inv(s, keysOf)
    requires Admissible(s, es, failure, inherited, keysOf)
    ensures Inv(Run(s, es, failure, inherited), keysOf)
    decreases |es|
  {
    if |es| > 0 {
      StepKeepsInv(s, es[0], failure, inherited, keysOf);
      RunKeepsInv(Step(s, es[0], failure, inherited), es[1..], failure, inherited, keysOf);
    }
  }

  /** At most one request is pending: a completion is only possible while
      loading, and a click while loading is not. */
  lemma NoOverlappingRequests<T, K>(s: Slice<T, K>, url: string, again: string, failure: string, inherited: set<K>, shown: set<K>)
    requires Enabled(s, Click(url), shown)
    requires url != ""
    ensures Step(s, Click(url), failure, inherited).loading
    ensures !Enabled(Step(s, Click(url), failure, inherited), Click(again), shown)
  {
  }
}
