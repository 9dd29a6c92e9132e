/** The regular expression the backend runs on every block of SQLMap's report,
    `Type:\s(.+?)\n\s*Title:\s(.+?)\n\s*Payload:\s(.+?)\n`, and `re.findall`'s
    first hit.

    `.` never matches a newline, so each lazy capture `(.+?)\n` can only be the
    non-empty rest of its line; and the greedy `\s*` can only stop right before
    the next label, whose first letter is not whitespace. The expression
    therefore has at most one match at each start position, and `MatchAt`
    computes it deterministically. `MatchSpec` states the same pattern
    declaratively, and `MatchAtIff` proves the two agree. */
module SqlmapRegex {
  import opened Wrappers
  import PyStr

  /** The three groups of one match. */
  datatype Triple = Triple(kind: string, title: string, payload: string)

  /** A match: where it starts, its groups, and where it ends. */
  datatype Hit = Hit(start: nat, triple: Triple, end: nat)

  /** Greedy `\s*` starting at `p`: the end of the whitespace run. */
  function SkipSpace(t: string, p: nat): (q: nat)
    requires p <= |t|
    decreases |t| - p
    ensures p <= q <= |t|
    ensures forall j :: p <= j < q ==> PyStr.IsSpace(t[j])
    ensures q < |t| ==> !PyStr.IsSpace(t[q])
  {
    if p < |t| && PyStr.IsSpace(t[p]) then SkipSpace(t, p + 1) else p
  }

  /** The position of the first newline at or after `p`, if there is one. */
  function LineEnd(t: string, p: nat): (q: Option<nat>)
    requires p <= |t|
    decreases |t| - p
    ensures q.Some? ==> p <= q.value < |t| && t[q.value] == '\n'
    ensures q.Some? ==> forall j :: p <= j < q.value ==> t[j] != '\n'
    ensures q.None? ==> forall j :: p <= j < |t| ==> t[j] != '\n'
  {
    if p == |t| then None
    else if t[p] == '\n' then Some(p)
    else LineEnd(t, p + 1)
  }

  /** `\s(.+?)\n` read declaratively: one whitespace character at `p`, a
      non-empty capture `cap` without newline, then a newline; `next` is the
      position just after that newline. */
  ghost predicate FieldSpec(t: string, p: int, cap: string, next: int)
  {
    && 0 <= p
    && p + 2 < next <= |t|
    && PyStr.IsSpace(t[p])
    && t[next - 1] == '\n'
    && cap == t[p + 1..next - 1]
    && '\n' !in cap
  }

  /** `\s(.+?)\n` at `p`: the capture and the position after the newline. */
  function Field(t: string, p: nat): (f: Option<(string, nat)>)
    requires p <= |t|
    ensures f.Some? ==> FieldSpec(t, p, f.value.0, f.value.1)
  {
    if p < |t| && PyStr.IsSpace(t[p]) then
      match LineEnd(t, p + 1)
      case None => None
      case Some(e) => if e == p + 1 then None else Some((t[p + 1..e], e + 1))
    else None
  }

  /** A capture the pattern allows is the one `Field` returns. */
  lemma FieldUnique(t: string, p: nat, cap: string, next: int)
    requires p <= |t|
    requires FieldSpec(t, p, cap, next)
    ensures Field(t, p) == Some((cap, next))
  {
    var e := LineEnd(t, p + 1);
    forall j | p + 1 <= j < next - 1
      ensures t[j] != '\n'
    {
      assert t[j] == cap[j - (p + 1)];
    }
    assert e == Some(next - 1);
  }

  /** A literal label at `q` followed by `\s(.+?)\n`. */
  function Labelled(t: string, q: nat, word: string): (f: Option<(string, nat)>)
    requires q <= |t|
    ensures f.Some? ==> LabelledSpec(t, q, word, f.value.0, f.value.1)
  {
    if PyStr.OccursAt(t, word, q) then Field(t, q + |word|) else None
  }

  /** `word\s(.+?)\n` read declaratively, with `word` at `q`. */
  ghost predicate LabelledSpec(t: string, q: int, word: string, cap: string, next: int)
  {
    PyStr.OccursAt(t, word, q) && FieldSpec(t, q + |word|, cap, next)
  }

  /** A labelled field the pattern allows is the one `Labelled` returns. */
  lemma LabelledUnique(t: string, q: nat, word: string, cap: string, next: int)
    requires q <= |t|
    requires LabelledSpec(t, q, word, cap, next)
    ensures Labelled(t, q, word) == Some((cap, next))
  {
    FieldUnique(t, q + |word|, cap, next);
  }

  /** The whole of `t[p..q]` is whitespace (a `\s*` that matched it). */
  ghost predicate SpaceRun(t: string, p: int, q: int)
  {
    0 <= p <= q <= |t| && forall j :: p <= j < q ==> PyStr.IsSpace(t[j])
  }

  /** A `\s*` run followed by a label that starts with a non-space is the
      maximal run. */
  lemma SpaceRunBeforeLabel(t: string, p: nat, q: nat, word: string)
    requires SpaceRun(t, p, q)
    requires PyStr.OccursAt(t, word, q)
    requires |word| > 0 && !PyStr.IsSpace(word[0])
    ensures SkipSpace(t, p) == q
  {
    assert t[q] == t[q..q + |word|][0];
  }

  /** Where the pieces of a match lie: after the Type line, at "Title:",
      after the Title line, at "Payload:". */
  datatype Layout = Layout(afterType: int, titleAt: int, afterTitle: int, payloadAt: int)

  /** The pattern matched at `p` with groups `tr`, ending at `e`, laid out as `l`. */
  ghost predicate LaidOut(t: string, p: int, tr: Triple, e: int, l: Layout)
  {
    && LabelledSpec(t, p, "Type:", tr.kind, l.afterType)
    && SpaceRun(t, l.afterType, l.titleAt)
    && LabelledSpec(t, l.titleAt, "Title:", tr.title, l.afterTitle)
    && SpaceRun(t, l.afterTitle, l.payloadAt)
    && LabelledSpec(t, l.payloadAt, "Payload:", tr.payload, e)
  }

  /** The pattern matches at `p` with groups `tr`, ending at `e`. */
  ghost predicate MatchSpec(t: string, p: int, tr: Triple, e: int)
  {
    exists l :: LaidOut(t, p, tr, e, l)
  }

  /** The pattern matches when its five parts line up. */
  lemma MatchFromParts(t: string, p: int, tr: Triple, e: int, l: Layout)
    requires LabelledSpec(t, p, "Type:", tr.kind, l.afterType)
    requires SpaceRun(t, l.afterType, l.titleAt)
    requires LabelledSpec(t, l.titleAt, "Title:", tr.title, l.afterTitle)
    requires SpaceRun(t, l.afterTitle, l.payloadAt)
    requires LabelledSpec(t, l.payloadAt, "Payload:", tr.payload, e)
    ensures MatchSpec(t, p, tr, e)
  {
    assert LaidOut(t, p, tr, e, l);
  }

  /** The match of the pattern starting exactly at `p`, if any. */
  function MatchAt(t: string, p: nat): (m: Option<(Triple, nat)>)
    requires p <= |t|
    ensures m.Some? ==> MatchSpec(t, p, m.value.0, m.value.1)
  {
    match Labelled(t, p, "Type:")
    case None => None
    case Some((kind, p1)) =>
      var q1 := SkipSpace(t, p1);
      match Labelled(t, q1, "Title:")
      case None => None
      case Some((title, p2)) =>
        var q2 := SkipSpace(t, p2);
        match Labelled(t, q2, "Payload:")
        case None => None
        case Some((payload, e)) =>
          assert LaidOut(t, p, Triple(kind, title, payload), e, Layout(p1, q1, p2, q2));
          Some((Triple(kind, title, payload), e))
  }

  /** Without "Type:" at `p` there is no match at `p`. */
  lemma NoLabelNoMatch(t: string, p: nat)
    requires p <= |t|
    requires !PyStr.OccursAt(t, "Type:", p)
    ensures MatchAt(t, p).None?
  {
  }

  /** Every way the pattern can match at `p` is the one `MatchAt` finds. */
  lemma MatchAtComplete(t: string, p: nat, tr: Triple, e: int)
    requires p <= |t|
    requires MatchSpec(t, p, tr, e)
    ensures MatchAt(t, p) == Some((tr, e))
  {
    var l :| LaidOut(t, p, tr, e, l);
    LabelledUnique(t, p, "Type:", tr.kind, l.afterType);
    SpaceRunBeforeLabel(t, l.afterType, l.titleAt, "Title:");
    LabelledUnique(t, l.titleAt, "Title:", tr.title, l.afterTitle);
    SpaceRunBeforeLabel(t, l.afterTitle, l.payloadAt, "Payload:");
    LabelledUnique(t, l.payloadAt, "Payload:", tr.payload, e);
  }

  /** `MatchAt` finds exactly the matches the pattern describes. */
  lemma MatchAtIff(t: string, p: nat, tr: Triple, e: int)
    requires p <= |t|
    ensures MatchAt(t, p) == Some((tr, e)) <==> MatchSpec(t, p, tr, e)
  {
    if MatchSpec(t, p, tr, e) {
      MatchAtComplete(t, p, tr, e);
    }
  }

  /** The position of the first `Some` in `xs` at or after `p`. */
  function FirstSomeFrom<X>(xs: seq<Option<X>>, p: nat): (k: Option<nat>)
    requires p <= |xs|
    decreases |xs| - p
    ensures k.Some? ==> p <= k.value < |xs| && xs[k.value].Some?
    ensures k.Some? ==> forall j :: p <= j < k.value ==> xs[j].None?
    ensures k.None? ==> forall j :: p <= j < |xs| ==> xs[j].None?
  {
    if p == |xs| then None
    else if xs[p].Some? then Some(p)
    else FirstSomeFrom(xs, p + 1)
  }

  /** A `Some` with only `None`s before it is the first one. */
  lemma FirstSomeIs<X>(xs: seq<Option<X>>, k: nat)
    requires k < |xs| && xs[k].Some?
    requires forall j :: 0 <= j < k ==> xs[j].None?
    ensures FirstSomeFrom(xs, 0) == Some(k)
  {
  }

  /** `MatchAt` at every start position of `t`, the end of `t` included. */
  function Scan(t: string): (ms: seq<Option<(Triple, nat)>>)
    ensures |ms| == |t| + 1
    ensures forall j :: 0 <= j <= |t| ==> ms[j] == MatchAt(t, j)
  {
    seq(|t| + 1, j requires 0 <= j <= |t| => MatchAt(t, j))
  }

  /** `re.findall(pattern, t)[0]`, or `None` when the list is empty: the
      scan tries each start position from the left and stops at the first
      one where the pattern matches. */
  function FirstMatch(t: string): (m: Option<Hit>)
    ensures m.Some? ==> m.value.start <= |t|
    ensures m.Some? ==> MatchAt(t, m.value.start) == Some((m.value.triple, m.value.end))
    ensures m.Some? ==> forall j :: 0 <= j < m.value.start ==> MatchAt(t, j).None?
    ensures m.None? ==> forall j :: 0 <= j <= |t| ==> MatchAt(t, j).None?
  {
    var ms := Scan(t);
    match FirstSomeFrom(ms, 0)
    case None => None
    case Some(k) => Some(Hit(k, ms[k].value.0, ms[k].value.1))
  }

  /** A match with no match before it is the first match. */
  lemma FirstMatchIsLeftmost(t: string, k: nat, tr: Triple, e: nat)
    requires k <= |t|
    requires MatchAt(t, k) == Some((tr, e))
    requires forall j :: 0 <= j < k ==> MatchAt(t, j).None?
    ensures FirstMatch(t) == Some(Hit(k, tr, e))
  {
    var ms := Scan(t);
    forall j | 0 <= j < k
      ensures ms[j].None?
    {
      assert ms[j] == MatchAt(t, j);
    }
    FirstSomeIs(ms, k);
  }

  /** No match of the pattern starts before `k`. */
  ghost predicate NoMatchBefore(t: string, k: int)
  {
    forall j, tr, e :: 0 <= j < k ==> !MatchSpec(t, j, tr, e)
  }

  /** No match the pattern allows starts in `[0, k)` exactly when `MatchAt`
      finds none there. */
  lemma NoMatchBetween(t: string, k: int)
    requires k <= |t| + 1
    ensures NoMatchBefore(t, k) <==> forall j :: 0 <= j < k ==> MatchAt(t, j).None?
  {
    if forall j :: 0 <= j < k ==> MatchAt(t, j).None? {
      forall j, tr, e | 0 <= j < k
        ensures !MatchSpec(t, j, tr, e)
      {
        if MatchSpec(t, j, tr, e) {
          MatchAtComplete(t, j, tr, e);
        }
      }
    }
  }

  /** The first match is the leftmost match the pattern allows. */
  lemma FirstMatchIff(t: string, h: Hit)
    ensures FirstMatch(t) == Some(h) <==>
              h.start <= |t| && MatchSpec(t, h.start, h.triple, h.end) && NoMatchBefore(t, h.start)
  {
    if h.start <= |t| {
      NoMatchBetween(t, h.start);
      MatchAtIff(t, h.start, h.triple, h.end);
      var m := FirstMatch(t);
      if MatchAt(t, h.start) == Some((h.triple, h.end)) && NoMatchBefore(t, h.start) {
        assert m.Some? && m.value.start == h.start;
      }
    }
  }

  /** `re.findall` returns nothing exactly when the pattern matches nowhere. */
  lemma FirstMatchNoneIff(t: string)
    ensures FirstMatch(t).None? <==> NoMatchBefore(t, |t| + 1)
  {
    NoMatchBetween(t, |t| + 1);
  }

  /** Each captured group is non-empty and lies on one line. */
  lemma MatchGroupsAreLines(t: string, p: int, tr: Triple, e: int)
    requires MatchSpec(t, p, tr, e)
    ensures |tr.kind| > 0 && '\n' !in tr.kind
    ensures |tr.title| > 0 && '\n' !in tr.title
    ensures |tr.payload| > 0 && '\n' !in tr.payload
    ensures p < e <= |t|
  {
  }
}
