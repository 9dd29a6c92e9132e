/** The stdout-parsing half of the backend's `/sqlmap` handler: the report
    section between the first two `---` lines is cut into blank-line
    separated blocks, and each block must yield one Type/Title/Payload
    triple, or the whole request fails. */
module SqlmapParser {
  import opened Wrappers
  import PyStr
  import SqlmapRegex
  import opened Records

  /** What the handler raises: `IndexError` when `results[1]` does not exist,
      `ValueError` when a block holds no triple. */
  datatype ParseError = IndexError | ValueError(message: string)

  const NoResultMessage := "No result found. Please check the target URL or the SQLMap command."

  /** The line SQLMap draws around its injection-point report. */
  const Marker := "---"

  /** Blocks of the report are separated by one blank line. */
  const BlockSeparator := "\n\n"

  /** Every captured group is a non-empty single line. */
  predicate WellFormed(f: SqlmapFinding)
  {
    && |f.kind| > 0 && '\n' !in f.kind
    && |f.title| > 0 && '\n' !in f.title
    && |f.payload| > 0 && '\n' !in f.payload
  }

  /** `re.findall(pattern, block + '\n')[0]`, or `None` for an empty list. */
  function ParseBlock(block: string): (r: Option<SqlmapFinding>)
    ensures r.Some? ==> WellFormed(r.value)
  {
    match SqlmapRegex.FirstMatch(block + "\n")
    case None => None
    case Some(h) =>
      SqlmapRegex.MatchGroupsAreLines(block + "\n", h.start, h.triple, h.end);
      Some(SqlmapFinding(h.triple.kind, h.triple.title, h.triple.payload))
  }

  /** The loop over the blocks, given what the search found in each block:
      the findings in block order, or `ValueError` (and no partial list) as
      soon as a block has no triple. */
  function Collect(found: seq<Option<SqlmapFinding>>): (r: Result<seq<SqlmapFinding>, ParseError>)
    ensures r.Success? <==> forall i :: 0 <= i < |found| ==> found[i].Some?
    ensures r.Success? ==> |r.value| == |found|
    ensures r.Success? ==> forall i :: 0 <= i < |found| ==> found[i] == Some(r.value[i])
    ensures r.Failure? ==> r.error == ValueError(NoResultMessage)
  {
    if |found| == 0 then Success([])
    else
      match found[0]
      case None => Failure(ValueError(NoResultMessage))
      case Some(f) =>
        match Collect(found[1..])
        case Failure(e) => Failure(e)
        case Success(rest) => Success([f] + rest)
  }

  /** What the search finds in each block, in block order. */
  function Searches(blocks: seq<string>): (found: seq<Option<SqlmapFinding>>)
    ensures |found| == |blocks|
    ensures forall i :: 0 <= i < |blocks| ==> found[i] == ParseBlock(blocks[i])
  {
    seq(|blocks|, i requires 0 <= i < |blocks| => ParseBlock(blocks[i]))
  }

  /** The loop over the blocks: one finding per block, in block order, or
      `ValueError` as soon as a block has no triple. */
  function ParseBlocks(blocks: seq<string>): (r: Result<seq<SqlmapFinding>, ParseError>)
    ensures r.Success? <==> forall i :: 0 <= i < |blocks| ==> ParseBlock(blocks[i]).Some?
    ensures r.Success? ==> |r.value| == |blocks|
    ensures r.Success? ==> forall i :: 0 <= i < |blocks| ==> ParseBlock(blocks[i]) == Some(r.value[i])
    ensures r.Failure? ==> r.error == ValueError(NoResultMessage)
  {
    Collect(Searches(blocks))
  }

  /** The findings of one report section (`results[1]`). */
  function ParseSection(section: string): (r: Result<seq<SqlmapFinding>, ParseError>)
    ensures r.Success? ==> |r.value| >= 1
    ensures r.Success? ==> forall i :: 0 <= i < |r.value| ==> WellFormed(r.value[i])
  {
    ParseBlocks(PyStr.Split(section, BlockSeparator))
  }

  /** The handler's parse of SQLMap's captured stdout. */
  function ParseOutput(stdout: string): (r: Result<seq<SqlmapFinding>, ParseError>)
    ensures r.Success? ==> |r.value| >= 1
    ensures r.Success? ==> forall i :: 0 <= i < |r.value| ==> WellFormed(r.value[i])
    ensures r == Failure(IndexError) <==> !PyStr.Contains(stdout, Marker)
  {
    PyStr.SplitSingleIff(stdout, Marker);
    var pieces := PyStr.Split(stdout, Marker);
    if |pieces| < 2 then Failure(IndexError) else ParseSection(pieces[1])
  }

  /** Only the text between the first and the second marker is read. */
  lemma SectionBetweenMarkers(before: string, section: string, after: string)
    requires PyStr.EndsCleanly(before, Marker)
    requires PyStr.EndsCleanly(section, Marker)
    ensures ParseOutput(before + Marker + section + Marker + after) == ParseSection(section)
  {
    PyStr.SplitAtFirst(section, Marker, after);
    PyStr.SplitAtFirst(before, Marker, section + Marker + after);
    assert before + Marker + (section + Marker + after) == before + Marker + section + Marker + after;
  }

  /** Once the stdout holds two markers, nothing appended to it changes the
      result. */
  lemma TextAfterSecondMarkerIgnored(stdout: string, more: string)
    requires |PyStr.Split(stdout, Marker)| >= 3
    ensures ParseOutput(stdout + more) == ParseOutput(stdout)
  {
    PyStr.SplitAppend(stdout, more, Marker);
  }

  /** A block rendered as SQLMap prints one injection technique: an optional
      heading, then the three labelled lines with any indentation. */
  function RenderBlock(heading: string, indent1: string, indent2: string, f: SqlmapFinding, rest: string): string
  {
    heading + "Type: " + f.kind + "\n" + indent1 + "Title: " + f.title + "\n"
      + indent2 + "Payload: " + f.payload + rest
  }

  /** All characters of `s` are whitespace in the regular-expression sense. */
  predicate AllSpace(s: string)
  {
    forall i :: 0 <= i < |s| ==> PyStr.IsSpace(s[i])
  }

  /** A labelled line written out at `q` satisfies the labelled-field pattern. */
  lemma LabelledLine(t: string, q: nat, n: nat, word: string, cap: string)
    requires q <= n <= |t|
    requires t[q..n] == word + " " + cap + "\n"
    requires |cap| > 0 && '\n' !in cap
    ensures SqlmapRegex.LabelledSpec(t, q, word, cap, n)
  {
    var w := word + " " + cap + "\n";
    assert n - q == |w| == |word| + |cap| + 2;
    assert forall i :: 0 <= i < |w| ==> t[q + i] == w[i];
    assert t[q..q + |word|] == word by {
      assert forall i :: 0 <= i < |word| ==> w[i] == word[i];
    }
    assert t[q + |word| + 1..n - 1] == cap by {
      assert forall i :: 0 <= i < |cap| ==> w[|word| + 1 + i] == cap[i];
    }
    assert t[q + |word|] == w[|word|];
    assert t[n - 1] == w[|w| - 1];
  }

  /** A rendered block gives back its finding: the groups are the rest of each
      labelled line, a payload on the block's last line still matches because
      a newline is appended, and whatever follows the payload line (a second
      triple included) is not read. */
  lemma RenderedBlockParses(heading: string, indent1: string, indent2: string, f: SqlmapFinding, rest: string)
    requires WellFormed(f)
    requires PyStr.EndsCleanly(heading, "Type:")
    requires AllSpace(indent1) && AllSpace(indent2)
    requires rest == "" || rest[0] == '\n'
    ensures ParseBlock(RenderBlock(heading, indent1, indent2, f, rest)) == Some(f)
  {
    var t := RenderBlock(heading, indent1, indent2, f, rest) + "\n";
    var tr := SqlmapRegex.Triple(f.kind, f.title, f.payload);
    var e := RenderedMatch(heading, indent1, indent2, f, rest);
    FirstMatchAfterHeading(t, heading, tr, e);
  }

  /** The pattern matches a rendered block right after its heading. */
  lemma RenderedMatch(heading: string, indent1: string, indent2: string, f: SqlmapFinding, rest: string)
    returns (e: int)
    requires WellFormed(f)
    requires AllSpace(indent1) && AllSpace(indent2)
    requires rest == "" || rest[0] == '\n'
    ensures SqlmapRegex.MatchSpec(RenderBlock(heading, indent1, indent2, f, rest) + "\n", |heading|,
                                  SqlmapRegex.Triple(f.kind, f.title, f.payload), e)
    ensures (RenderBlock(heading, indent1, indent2, f, rest) + "\n")[..|heading|] == heading
  {
    var t := RenderBlock(heading, indent1, indent2, f, rest) + "\n";
    var p0 := |heading|;
    var a1 := |heading| + |f.kind| + 7;
    var q1 := a1 + |indent1|;
    var a2 := q1 + |f.title| + 8;
    var q2 := a2 + |indent2|;
    e := q2 + |f.payload| + 10;
    RenderedSlices(heading, indent1, indent2, f, rest);
    LabelledLine(t, p0, a1, "Type:", f.kind);
    SpaceSlice(t, a1, q1, indent1);
    LabelledLine(t, q1, a2, "Title:", f.title);
    SpaceSlice(t, a2, q2, indent2);
    LabelledLine(t, q2, e, "Payload:", f.payload);
    SqlmapRegex.MatchFromParts(t, p0, SqlmapRegex.Triple(f.kind, f.title, f.payload), e,
                               SqlmapRegex.Layout(a1, q1, a2, q2));
  }

  /** A rendered block, with the newline the parser appends, as its seven
      consecutive parts. */
  lemma RenderedParts(heading: string, indent1: string, indent2: string, f: SqlmapFinding, rest: string)
    requires rest == "" || rest[0] == '\n'
    ensures RenderBlock(heading, indent1, indent2, f, rest) + "\n"
            == heading + ("Type:" + " " + f.kind + "\n") + indent1 + ("Title:" + " " + f.title + "\n")
               + indent2 + ("Payload:" + " " + f.payload + "\n") + (if rest == "" then "" else rest[1..] + "\n")
  {
    var tail := if rest == "" then "" else rest[1..] + "\n";
    assert rest + "\n" == "\n" + tail;
  }

  /** Where each line and each indentation of a rendered block lies. */
  lemma RenderedSlices(heading: string, indent1: string, indent2: string, f: SqlmapFinding, rest: string)
    requires rest == "" || rest[0] == '\n'
    ensures var t := RenderBlock(heading, indent1, indent2, f, rest) + "\n";
      var a1 := |heading| + |f.kind| + 7;
      var q1 := a1 + |indent1|;
      var a2 := q1 + |f.title| + 8;
      var q2 := a2 + |indent2|;
      var e := q2 + |f.payload| + 10;
      && e <= |t|
      && t[..|heading|] == heading
      && t[|heading|..a1] == "Type:" + " " + f.kind + "\n"
      && t[a1..q1] == indent1
      && t[q1..a2] == "Title:" + " " + f.title + "\n"
      && t[a2..q2] == indent2
      && t[q2..e] == "Payload:" + " " + f.payload + "\n"
  {
    var l1 := "Type:" + " " + f.kind + "\n";
    var l2 := "Title:" + " " + f.title + "\n";
    var l3 := "Payload:" + " " + f.payload + "\n";
    var tail := if rest == "" then "" else rest[1..] + "\n";
    RenderedParts(heading, indent1, indent2, f, rest);
    SevenParts(heading, l1, indent1, l2, indent2, l3, tail);
  }

  /** The parts of a seven-part concatenation sit at their running offsets. */
  lemma SevenParts(x0: string, x1: string, x2: string, x3: string, x4: string, x5: string, x6: string)
    ensures var t := x0 + x1 + x2 + x3 + x4 + x5 + x6;
      var o1 := |x0|;
      var o2 := o1 + |x1|;
      var o3 := o2 + |x2|;
      var o4 := o3 + |x3|;
      var o5 := o4 + |x4|;
      var o6 := o5 + |x5|;
      && t[..o1] == x0
      && t[o1..o2] == x1
      && t[o2..o3] == x2
      && t[o3..o4] == x3
      && t[o4..o5] == x4
      && t[o5..o6] == x5
  {
    var t := x0 + x1 + x2 + x3 + x4 + x5 + x6;
    var u := x0 + x1 + x2 + x3 + x4 + x5;
    assert t[..|u|] == u;
    PrefixParts(x0, x1, x2, x3, x4, x5);
  }

  /** The parts of a six-part concatenation sit at their running offsets. */
  lemma PrefixParts(x0: string, x1: string, x2: string, x3: string, x4: string, x5: string)
    ensures var u := x0 + x1 + x2 + x3 + x4 + x5;
      var o1 := |x0|;
      var o2 := o1 + |x1|;
      var o3 := o2 + |x2|;
      var o4 := o3 + |x3|;
      var o5 := o4 + |x4|;
      && u[..o1] == x0
      && u[o1..o2] == x1
      && u[o2..o3] == x2
      && u[o3..o4] == x3
      && u[o4..o5] == x4
      && u[o5..] == x5
  {
    var u := x0 + x1 + x2 + x3 + x4 + x5;
    var v := x0 + x1 + x2 + x3 + x4;
    assert u[..|v|] == v;
    var w := x0 + x1 + x2 + x3;
    assert v[..|w|] == w;
    var y := x0 + x1 + x2;
    assert w[..|y|] == y;
    var z := x0 + x1;
    assert y[..|z|] == z;
  }

  /** A whitespace slice is a `\s*` run. */
  lemma SpaceSlice(t: string, p: nat, q: nat, run: string)
    requires p <= q <= |t|
    requires t[p..q] == run && AllSpace(run)
    ensures SqlmapRegex.SpaceRun(t, p, q)
  {
    forall j | p <= j < q
      ensures PyStr.IsSpace(t[j])
    {
      assert t[j] == t[p..q][j - p];
    }
  }

  /** After a heading in which no "Type:" can start, the first match is the
      one at the end of the heading. */
  lemma FirstMatchAfterHeading(t: string, heading: string, tr: SqlmapRegex.Triple, e: int)
    requires |heading| <= |t| && t[..|heading|] == heading
    requires PyStr.EndsCleanly(heading, "Type:")
    requires SqlmapRegex.MatchSpec(t, |heading|, tr, e)
    ensures SqlmapRegex.FirstMatch(t) == Some(SqlmapRegex.Hit(|heading|, tr, e))
  {
    var p0 := |heading|;
    assert SqlmapRegex.MatchAt(t, p0) == Some((tr, e)) by {
      SqlmapRegex.MatchAtComplete(t, p0, tr, e);
    }
    NoLabelInHeading(t, heading);
    forall j | 0 <= j < p0
      ensures SqlmapRegex.MatchAt(t, j).None?
    {
      SqlmapRegex.NoLabelNoMatch(t, j);
    }
    SqlmapRegex.FirstMatchIsLeftmost(t, p0, tr, e);
  }

  /** No "Type:" starts inside a heading that ends cleanly. */
  lemma NoLabelInHeading(t: string, heading: string)
    requires |heading| <= |t| && t[..|heading|] == heading
    requires PyStr.EndsCleanly(heading, "Type:")
    requires PyStr.OccursAt(t, "Type:", |heading|)
    ensures forall j :: 0 <= j < |heading| ==> !PyStr.OccursAt(t, "Type:", j)
  {
    var p0 := |heading|;
    assert t[..p0 + 5] == heading + "Type:" by {
      assert t[..p0 + 5] == t[..p0] + t[p0..p0 + 5];
    }
    forall j | 0 <= j < p0
      ensures !PyStr.OccursAt(t, "Type:", j)
    {
      PyStr.OccursInPrefixIff(t, p0 + 5, "Type:", j);
    }
  }

  /** Blocks that each yield a finding, joined by blank lines and kept apart
      by them alone, parse back to those findings in order. */
  lemma JoinedBlocksParse(blocks: seq<string>, findings: seq<SqlmapFinding>)
    requires |blocks| >= 1 && |blocks| == |findings|
    requires forall i :: 0 <= i < |blocks| ==> ParseBlock(blocks[i]) == Some(findings[i])
    requires forall i :: 0 <= i < |blocks| - 1 ==> PyStr.EndsCleanly(blocks[i], BlockSeparator)
    requires !PyStr.Contains(blocks[|blocks| - 1], BlockSeparator)
    ensures ParseSection(PyStr.Join(blocks, BlockSeparator)) == Success(findings)
  {
    PyStr.SplitJoin(blocks, BlockSeparator);
    BlocksParse(blocks, findings);
  }

  /** Blocks that each yield a finding give exactly those findings. */
  lemma BlocksParse(blocks: seq<string>, findings: seq<SqlmapFinding>)
    requires |blocks| == |findings|
    requires forall i :: 0 <= i < |blocks| ==> ParseBlock(blocks[i]) == Some(findings[i])
    ensures ParseBlocks(blocks) == Success(findings)
  {
    var r := ParseBlocks(blocks);
    assert r.Success?;
    forall i | 0 <= i < |blocks|
      ensures r.value[i] == findings[i]
    {
      assert Some(r.value[i]) == ParseBlock(blocks[i]);
    }
    assert |r.value| == |findings|;
    assert r.value == findings;
  }

  /** A whole report: SQLMap's output with the blocks between the two markers
      parses to the findings of those blocks. */
  lemma ReportParses(before: string, blocks: seq<string>, after: string, findings: seq<SqlmapFinding>)
    requires |blocks| >= 1 && |blocks| == |findings|
    requires forall i :: 0 <= i < |blocks| ==> ParseBlock(blocks[i]) == Some(findings[i])
    requires forall i :: 0 <= i < |blocks| - 1 ==> PyStr.EndsCleanly(blocks[i], BlockSeparator)
    requires !PyStr.Contains(blocks[|blocks| - 1], BlockSeparator)
    requires PyStr.EndsCleanly(before, Marker)
    requires PyStr.EndsCleanly(PyStr.Join(blocks, BlockSeparator), Marker)
    ensures ParseOutput(before + Marker + PyStr.Join(blocks, BlockSeparator) + Marker + after) == Success(findings)
  {
    SectionBetweenMarkers(before, PyStr.Join(blocks, BlockSeparator), after);
    JoinedBlocksParse(blocks, findings);
  }
}
