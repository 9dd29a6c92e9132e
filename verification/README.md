# Web Security Scanner: the SQLMap report parser and the page's fetch logic

This project is a Dafny model of the two pieces of pure logic in the Web Security Scanner.

The backend's `/sqlmap` handler runs SQLMap and turns the captured stdout into a list of `{type, title, payload}` records. The model covers:
- taking the text between the first and the second `---`;
- splitting it into blocks on blank lines;
- searching each block with the regular expression `Type:\s(.+?)\n\s*Title:\s(.+?)\n\s*Payload:\s(.+?)\n`, with a newline appended to the block;
- failing with `ValueError` when a block has no triple, and with `IndexError` when there is no `---`.

The React page has two fetch slices: the general scan and SQLMap. Each slice has a loading flag, an error message, a result list and an accordion map. The model covers:
- the transitions of `fetchData` and `fetchSqlmapData`;
- the accordion toggles;
- the case-insensitive risk and confidence class mappers;
- the rule that hides empty detail fields;
- the header fallbacks of a scan result.

Modules, one per file:
- `Wrappers`: `Option` and `Result`.
- `PyStr`: Python's `str.split` and the `\s` class.
- `SqlmapRegex`: the regular expression and `re.findall(...)[0]`.
- `Records`: the two record types.
- `SqlmapParser`: the stdout parser.
- `JsText`: JavaScript `trim`, `toLowerCase` and `||`.
- `Display`: the mappers, field suppression and header fallbacks.
- `Accordion`: the open/closed map.
- `FetchSlice`: one slice's state machine.
- `App`: the page with its two slices and the shared URL field.

How the model is built:
- **The regular expression** is computed deterministically by `MatchAt`, because a lazy `(.+?)\n` can only take the rest of its line and a greedy `\s*` must stop before the next label. `MatchSpec` states the same pattern declaratively, and `SqlmapRegex.MatchAtIff` proves the two agree.
- **The HTTP calls** are parameters. Their outcome is either the response array or a failure.
- **Event order** follows the page: the fetch button is disabled while its slice is loading, and a response only arrives for a pending request.

**Only the empty string is rejected.** The code tests `!url` (App.tsx:36, 57), so a whitespace-only URL is sent; `App.ClickScanValidation` states this.

**The accordion is a plain object.** `!!open[id]` also finds members inherited from `Object.prototype`. So a scan result whose id is "toString", "constructor" or another prototype member name is shown open after every fetch until it is toggled. `Accordion.IsOpen` reads such keys through the set `Accordion.ObjectPrototypeKeys`; SQLMap indexes never name one.

## Model

| member | source | states |
|---|---|---|
| PyStr.Find | Backend/main.py:110 | the search inside `str.split` returns the leftmost occurrence of the separator at or after the start, and nothing only when there is none |
| PyStr.Split | Backend/main.py:110-111 | `str.split(sep)` always yields at least one piece, and no piece contains the separator |
| PyStr.JoinSplit | Backend/main.py:110-111 | joining the pieces back with the separator restores the text exactly |
| PyStr.SplitSingleIff | Backend/main.py:110 | the split has a single piece (so `results[1]` does not exist) exactly when the text has no separator |
| PyStr.SplitAtFirst | Backend/main.py:110 | text that ends cleanly before a separator is the first piece, and the rest splits independently |
| PyStr.SplitJoin | Backend/main.py:111 | pieces shaped like split output are recovered exactly from their join |
| PyStr.SplitAppend | Backend/main.py:110-111 | appending text never changes the pieces before the last one |
| SqlmapRegex.SkipSpace | Backend/main.py:117 | greedy `\s*` stops at the first non-whitespace character, and everything it skips is whitespace |
| SqlmapRegex.Field | Backend/main.py:117 | `\s(.+?)\n` yields a non-empty capture without newline, followed by a newline |
| SqlmapRegex.FieldUnique | Backend/main.py:117 | a field the pattern allows is the only one: the lazy capture is the rest of the line |
| SqlmapRegex.Labelled | Backend/main.py:117 | a labelled field read by the matcher has its label at the position, then one whitespace character, a non-empty single-line capture and a newline |
| SqlmapRegex.LabelledUnique | Backend/main.py:117 | a labelled line the pattern allows is the one the matcher reads |
| SqlmapRegex.SpaceRunBeforeLabel | Backend/main.py:117 | a whitespace run followed by a label is the maximal run, so "Title:" and "Payload:" may be indented only by whitespace |
| SqlmapRegex.MatchAt | Backend/main.py:117 | whatever the matcher finds at a position is a match the declarative pattern allows |
| SqlmapRegex.MatchAtComplete | Backend/main.py:117 | every way the pattern can match at a position is the match the matcher finds |
| SqlmapRegex.MatchAtIff | Backend/main.py:117 | the deterministic matcher and the declarative pattern agree on every position, triple and end |
| SqlmapRegex.NoLabelNoMatch | Backend/main.py:117 | no match starts where "Type:" does not |
| SqlmapRegex.FirstSomeFrom | Backend/main.py:116-121 | the scan stops at the leftmost position with a match, and finds nothing only if no position matches |
| SqlmapRegex.FirstMatch | Backend/main.py:116-121 | `findall(...)[0]` is a match with no match starting before it, and the list is empty only if nothing matches anywhere |
| SqlmapRegex.FirstMatchIsLeftmost | Backend/main.py:116-121 | a match with none before it is exactly the triple `result[0]` returns |
| SqlmapRegex.NoMatchBetween | Backend/main.py:117 | no declarative match before a position exactly when the matcher finds none there |
| SqlmapRegex.FirstMatchIff | Backend/main.py:116-121 | the first result is precisely the leftmost match the pattern allows (both directions) |
| SqlmapRegex.FirstMatchNoneIff | Backend/main.py:116-118 | `findall` returns an empty list exactly when the pattern matches nowhere |
| SqlmapRegex.MatchGroupsAreLines | Backend/main.py:117 | each captured type, title and payload is non-empty and has no newline |
| SqlmapParser.ParseBlock | Backend/main.py:116-121 | a triple taken from a block is well formed: three non-empty single-line groups |
| SqlmapParser.Collect | Backend/main.py:112-124 | the loop succeeds exactly when every block yields a triple, gives one record per block in block order, and otherwise fails with the fixed `ValueError` and no partial list |
| SqlmapParser.ParseBlocks | Backend/main.py:111-124 | the same stated over the blocks: success iff every block parses; then the i-th record is the i-th block's triple |
| SqlmapParser.ParseSection | Backend/main.py:111-124 | a parsed section is never empty, and every record in it is well formed |
| SqlmapParser.ParseOutput | Backend/main.py:109-125 | the parse fails with `IndexError` exactly when stdout has no `---`; a success is non-empty and well formed |
| SqlmapParser.SectionBetweenMarkers | Backend/main.py:110-111 | only the text between the first and the second `---` is parsed |
| SqlmapParser.TextAfterSecondMarkerIgnored | Backend/main.py:110-111 | once stdout holds two `---`, appending any text leaves the result unchanged |
| SqlmapParser.LabelledLine | Backend/main.py:117 | a written-out `Label: value` line satisfies the labelled-field pattern |
| SqlmapParser.RenderedMatch | Backend/main.py:117 | the pattern matches a rendered block right after its heading, with any whitespace indentation |
| SqlmapParser.RenderedBlockParses | Backend/main.py:116-121 | a block printed as SQLMap prints a technique parses back to its finding; a payload on the last line still matches thanks to the appended newline; a later triple in the block is dropped |
| SqlmapParser.BlocksParse | Backend/main.py:113-124 | blocks that each yield a finding give exactly those findings, in order |
| SqlmapParser.JoinedBlocksParse | Backend/main.py:111-124 | blocks joined by blank lines parse back to one record per block |
| SqlmapParser.ReportParses | Backend/main.py:109-125 | a whole report (prefix, `---`, blocks, `---`, anything) parses to exactly its findings |
| JsText.TrimStart | Frontend/src/App.tsx:136 | `trimStart` removes exactly the leading whitespace: what is dropped is whitespace, and the result does not start with whitespace |
| JsText.TrimEnd | Frontend/src/App.tsx:136 | `trimEnd` removes exactly the trailing whitespace |
| JsText.Trim | Frontend/src/App.tsx:136 | the trimmed text neither starts nor ends with whitespace |
| JsText.TrimEmptyIff | Frontend/src/App.tsx:136 | `value.trim() === ''` exactly when the text is all whitespace |
| JsText.ToLower | Frontend/src/App.tsx:110 | `toLowerCase` keeps the length and lowers each character on its own |
| JsText.ToLowerEqualsIff | Frontend/src/App.tsx:110-116 | comparing the lowered text with a lower-case keyword is a case-insensitive comparison |
| JsText.ToLowerIgnoresCase | Frontend/src/App.tsx:121 | two spellings that differ only in case lower to the same text |
| Display.RiskColor | Frontend/src/App.tsx:108-117 | the risk class is one of the four level classes or `text-gray-700`, and an undefined risk gives `text-gray-700`; `Display.RiskColorSpec` states which input gives which |
| Display.RiskColorSpec | Frontend/src/App.tsx:108-117 | each risk class is chosen exactly when the risk spells its level in any case; anything else, undefined included, gives `text-gray-700` |
| Display.ConfidenceColor | Frontend/src/App.tsx:119-128 | the confidence class is one of the four confidence classes or `text-gray-700`, and an undefined confidence gives `text-gray-700`; `Display.ConfidenceColorSpec` states which input gives which |
| Display.ConfidenceColorSpec | Frontend/src/App.tsx:119-128 | the same for confidence; "high" and "firm" both give the green class, and nothing else does |
| Display.ColorsIgnoreCase | Frontend/src/App.tsx:108-128 | both mappers give the same class for inputs that differ only in case |
| Display.Suppressed | Frontend/src/App.tsx:136-138 | `renderScanResultField` renders nothing for undefined or null and always renders a number; `Display.SuppressedIff` gives the text case |
| Display.SuppressedIff | Frontend/src/App.tsx:136-138 | a field is hidden exactly when it is undefined, null or whitespace-only text; every number, 0 included, is shown |
| Display.VisibleFields | Frontend/src/App.tsx:210-241 | the detail grid shows exactly the fields that are not suppressed |
| Display.VisibleFieldsAppend | Frontend/src/App.tsx:210-241 | the grid keeps the fixed order of the fields |
| JsText.OrElse | Frontend/src/App.tsx:196-198 | JavaScript's logical or on an optional string gives the first operand when it is present and non-empty, else the second, so it is never empty when the fallback is not |
| Display.HeaderTitle | Frontend/src/App.tsx:196 | the header title is never the empty string (it can be whitespace) |
| Display.HeaderTitleFallback | Frontend/src/App.tsx:196 | the header shows the name, else the alert, else 'Unnamed Scan Result'; an empty name or alert counts as missing, but a whitespace-only name is shown and hides the alert |
| Display.RiskLabel | Frontend/src/App.tsx:198 | the risk label is the risk when it is non-empty, else 'N/A', and never the empty string |
| Accordion.IsOpen | Frontend/src/App.tsx:185 | `!!open[k]` (also line 286): an own entry that is true shows open, and a key shows open only through a true own entry or an inherited `Object.prototype` member |
| Accordion.Toggle | Frontend/src/App.tsx:27-33 | a toggle flips the displayed state of its key, inherited state included, keeps every other entry, and adds only that key |
| Accordion.EmptyShowsInherited | Frontend/src/App.tsx:185 | in the empty accordion an item shows open exactly when its key names an `Object.prototype` member |
| Accordion.ToggleKeepsOthers | Frontend/src/App.tsx:27-33 | toggling one item never changes what another item shows |
| Accordion.ToggleTwice | Frontend/src/App.tsx:27-33 | toggling twice restores what every item shows, whether the key was absent, inherited or an own entry |
| Accordion.ToggleCommutes | Frontend/src/App.tsx:27-33 | the order of two toggles does not matter to what is shown |
| FetchSlice.Begin | Frontend/src/App.tsx:35-43 | a request is sent iff the URL is non-empty; a rejected click sets only the error; a sent one resets error, results and accordion and sets loading |
| FetchSlice.Settle | Frontend/src/App.tsx:44-53 | after the await, loading ends; success stores exactly the response, failure stores the slice's message and keeps the results |
| FetchSlice.Fetch | Frontend/src/App.tsx:35-54 | a whole fetch ends idle with exactly the response and no error, or with the failure message and no results |
| FetchSlice.Enabled | Frontend/src/App.tsx:93-95 | a click only while the slice is idle (`disabled={isLoading}`), a completion only while its request is pending, a toggle only for a rendered item (lines 184-189) |
| FetchSlice.Step | Frontend/src/App.tsx:27-75 | a click starts loading exactly when the URL is non-empty or a request is pending; a completion ends loading and stores the response or the failure message; a toggle changes only what its item shows |
| FetchSlice.StepKeepsInv | Frontend/src/App.tsx:35-75 | every allowed event keeps the slice invariant: a loading slice shows no error, results or open items, and the accordion only records rendered items |
| FetchSlice.RunKeepsInv | Frontend/src/App.tsx:35-75 | every state reachable by allowed events satisfies the invariant |
| FetchSlice.NoOverlappingRequests | Frontend/src/App.tsx:93-95 | after a sent click the button is disabled, so at most one request per slice is pending |
| App.ScanKeys | Frontend/src/App.tsx:184-187 | the scan accordion keys are exactly the ids of the rendered results |
| App.SqlmapKeys | Frontend/src/App.tsx:285-288 | the SQLMap accordion keys are exactly the indexes of the rendered findings |
| App.PageEnabled | Frontend/src/App.tsx:93-95 | typing is always possible; each fetch button only while its own slice is idle, each response only while its own request is pending, and a toggle only for a rendered scan id or SQLMap index |
| App.PageStep | Frontend/src/App.tsx:35-75 | an event of one slice never changes the other slice, and only typing changes the target URL |
| App.MountedInv | Frontend/src/App.tsx:15-25 | the page as first rendered satisfies the invariant |
| App.PageStepKeepsInv | Frontend/src/App.tsx:35-75 | every allowed page event keeps both slices' invariants |
| App.ClickScanValidation | Frontend/src/App.tsx:36-39 | an empty URL sets only the scan error and changes nothing else on the page; any other URL, whitespace-only included, starts loading |
| App.ScanItemsAfterFetch | Frontend/src/App.tsx:43 | after a scan fetch an item shows open exactly when its id names an `Object.prototype` member |
| App.SqlmapItemsAfterFetch | Frontend/src/App.tsx:64 | after a SQLMap fetch every finding shows closed |
| App.ScanFetchOutcome | Frontend/src/App.tsx:40-53 | a full scan fetch ends idle with the response and no error, or with the scan failure message and no results, and leaves the SQLMap slice as it was |
| App.SqlmapFetchOutcome | Frontend/src/App.tsx:61-74 | the same for a SQLMap fetch, with the SQLMap failure message, leaving the scan slice as it was |

## Left out

- Running SQLMap as a subprocess, the ZAP client calls, polling and waits, the streaming route, and the FastAPI, CORS and dotenv setup: process, service and network I/O.
- The `print` calls and the final `model_dump()` of the handler: output and serialisation only.
- The axios POSTs and `encodeURIComponent`: the response is a parameter (the array or a failure), and the URL sent is not modelled.
- Races between overlapping requests: the disabled button makes a second click impossible while a request is pending, and the model keeps to that order of events.
- React hooks as such, the JSX markup, Tailwind classes other than the mappers' return values, the icon, the "Loading" text and `console.error`: presentation.
- JsText.ToLower: lowers only A-Z, not the full Unicode case mapping. No other character lowers to a single ASCII letter except the Kelvin sign, which lowers to "k", and no keyword the mappers compare against contains "k". So every comparison the page makes comes out the same.
- JsText.TrimStart: the whitespace set is the ECMAScript WhiteSpace and LineTerminator code points listed in `JsText.IsWhiteSpace`, taken as fixed.
- PyStr.IsSpace and the `\s` class use the fixed list of characters `str.isspace()` accepts.
- Display.VisibleFields: values are undefined, null, text or an integer. Floating-point numbers and their `toString` formatting are not modelled.
- Records.ScanResult holds only id, name, alert, risk and confidence. The other fields of the alert record are shown through `renderScanResultField` (App.tsx:210-241). The model states that function's suppression test over an abstract list of labelled values (`Display.VisibleFields`), not over the fields of a `ScanResult`.
- Tags rendering: its list of fields is presentation.
