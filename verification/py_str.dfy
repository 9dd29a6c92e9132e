/** The parts of Python's string behaviour that the SQLMap output parser rests on:
    `str.split(sep)` with an explicit separator, and the character class `\s`
    of a regular expression over `str`. */
module PyStr {
  import opened Wrappers

  /** Python's `\s` on `str` patterns: the characters `str.isspace()` accepts
      (ASCII whitespace, the information separators 0x1C-0x1F, NEL, and the
      Unicode space separators and line/paragraph separators). */
  predicate IsSpace(c: char)
  {
    || c == ' '
    || ('\t' <= c <= '\r')
    || ('\U{1c}' <= c <= '\U{1f}')
    || c == '\U{85}'
    || c == '\U{a0}'
    || c == '\U{1680}'
    || ('\U{2000}' <= c <= '\U{200a}')
    || c == '\U{2028}'
    || c == '\U{2029}'
    || c == '\U{202f}'
    || c == '\U{205f}'
    || c == '\U{3000}'
  }

  /** `sep` occurs in `s` starting at index `i`. */
  predicate OccursAt(s: string, sep: string, i: int)
  {
    0 <= i && i + |sep| <= |s| && s[i..i + |sep|] == sep
  }

  /** `sep in s`. */
  predicate Contains(s: string, sep: string)
  {
    exists i :: 0 <= i <= |s| && OccursAt(s, sep, i)
  }

  /** `s.find(sep, from)`: the leftmost occurrence of `sep` at or after `from`. */
  function Find(s: string, sep: string, from: nat): (r: Option<nat>)
    requires |sep| > 0
    decreases |s| - from
    ensures r.Some? ==> from <= r.value && OccursAt(s, sep, r.value)
    ensures r.Some? ==> forall j :: from <= j < r.value ==> !OccursAt(s, sep, j)
    ensures r.None? ==> forall j :: from <= j ==> !OccursAt(s, sep, j)
  {
    if |s| < from + |sep| then None
    else if s[from..from + |sep|] == sep then Some(from)
    else Find(s, sep, from + 1)
  }

  /** An occurrence inside a prefix of `s` is an occurrence in `s`. */
  lemma OccursInPrefix(s: string, n: nat, sep: string, j: int)
    requires n <= |s|
    requires OccursAt(s[..n], sep, j)
    ensures OccursAt(s, sep, j)
  {
    assert s[..n][j..j + |sep|] == s[j..j + |sep|];
  }

  /** Occurrences that end inside a prefix are the same in the prefix and in
      the whole text. */
  lemma OccursInPrefixIff(s: string, n: nat, sep: string, j: int)
    requires n <= |s|
    requires j + |sep| <= n
    ensures OccursAt(s[..n], sep, j) <==> OccursAt(s, sep, j)
  {
    if 0 <= j {
      assert s[..n][j..j + |sep|] == s[j..j + |sep|];
    }
  }

  /** `s.split(sep)`: the pieces of `s` between non-overlapping occurrences of
      `sep`, found left to right. Python raises on an empty separator. */
  function Split(s: string, sep: string): (pieces: seq<string>)
    requires |sep| > 0
    decreases |s|
    ensures |pieces| >= 1
    ensures forall k :: 0 <= k < |pieces| ==> !Contains(pieces[k], sep)
  {
    match Find(s, sep, 0)
    case None => [s]
    case Some(i) =>
      assert !Contains(s[..i], sep) by {
        forall j | 0 <= j <= i && OccursAt(s[..i], sep, j)
          ensures false
        {
          OccursInPrefix(s, i, sep, j);
        }
      }
      [s[..i]] + Split(s[i + |sep|..], sep)
  }

  /** `sep.join(pieces)`. */
  function Join(pieces: seq<string>, sep: string): string
  {
    if |pieces| == 0 then ""
    else if |pieces| == 1 then pieces[0]
    else pieces[0] + sep + Join(pieces[1..], sep)
  }

  /** One step of `Split`: the text up to the first separator, then the rest. */
  lemma SplitUnfold(s: string, sep: string, i: nat)
    requires |sep| > 0
    requires Find(s, sep, 0) == Some(i)
    ensures Split(s, sep) == [s[..i]] + Split(s[i + |sep|..], sep)
    ensures s == s[..i] + sep + s[i + |sep|..]
  {
    assert s[i..i + |sep|] == sep;
    assert s == s[..i] + s[i..i + |sep|] + s[i + |sep|..];
  }

  /** Joining the pieces back with the separator restores the original text. */
  lemma {:induction false} JoinSplit(s: string, sep: string)
    requires |sep| > 0
    ensures Join(Split(s, sep), sep) == s
    decreases |s|
  {
    var f := Find(s, sep, 0);
    if f.Some? {
      var i := f.value;
      var rest := s[i + |sep|..];
      SplitUnfold(s, sep, i);
      JoinSplit(rest, sep);
      var ps := Split(s, sep);
      assert ps[1..] == Split(rest, sep);
    }
  }

  /** An occurrence with none before it is what `Find` reports. */
  lemma FindIsFirst(s: string, sep: string, k: nat)
    requires |sep| > 0
    requires OccursAt(s, sep, k)
    requires forall j :: 0 <= j < k ==> !OccursAt(s, sep, j)
    ensures Find(s, sep, 0) == Some(k)
  {
  }

  /** Writing `sep` right after `a` creates no occurrence of `sep` that starts
      inside `a`: in `a + sep` the first occurrence is the appended one. */
  predicate EndsCleanly(a: string, sep: string)
  {
    forall j :: 0 <= j < |a| ==> !OccursAt(a + sep, sep, j)
  }

  /** Text without the separator is a single piece; the only such case. */
  lemma SplitSingleIff(s: string, sep: string)
    requires |sep| > 0
    ensures |Split(s, sep)| == 1 <==> !Contains(s, sep)
  {
    match Find(s, sep, 0)
    case None =>
    case Some(i) =>
      assert OccursAt(s, sep, i);
      assert Contains(s, sep);
  }

  /** The first piece ends exactly at the first separator. */
  lemma {:induction false} SplitAtFirst(a: string, sep: string, b: string)
    requires |sep| > 0
    requires EndsCleanly(a, sep)
    ensures Split(a + sep + b, sep) == [a] + Split(b, sep)
  {
    var s := a + sep + b;
    assert OccursAt(s, sep, |a|) by {
      assert s[|a|..|a| + |sep|] == sep;
    }
    forall j | 0 <= j < |a|
      ensures !OccursAt(s, sep, j)
    {
      if OccursAt(s, sep, j) {
        assert (a + sep)[j..j + |sep|] == s[j..j + |sep|];
        assert OccursAt(a + sep, sep, j);
      }
    }
    FindIsFirst(s, sep, |a|);
    assert s[..|a|] == a;
    assert s[|a| + |sep|..] == b;
  }

  /** Pieces that meet the conditions `Split` produces are recovered exactly
      from their join. */
  lemma {:induction false} SplitJoin(pieces: seq<string>, sep: string)
    requires |sep| > 0
    requires |pieces| >= 1
    requires forall k :: 0 <= k < |pieces| - 1 ==> EndsCleanly(pieces[k], sep)
    requires !Contains(pieces[|pieces| - 1], sep)
    ensures Split(Join(pieces, sep), sep) == pieces
    decreases |pieces|
  {
    if |pieces| == 1 {
      SplitSingleIff(pieces[0], sep);
    } else {
      SplitJoin(pieces[1..], sep);
      SplitAtFirst(pieces[0], sep, Join(pieces[1..], sep));
    }
  }

  /** Appending text keeps the first occurrence of the separator. */
  lemma FindAppend(s: string, t: string, sep: string, i: nat)
    requires |sep| > 0
    requires Find(s, sep, 0) == Some(i)
    ensures Find(s + t, sep, 0) == Some(i)
  {
    var st := s + t;
    assert st[..|s|] == s;
    OccursInPrefixIff(st, |s|, sep, i);
    forall j | 0 <= j < i
      ensures !OccursAt(st, sep, j)
    {
      OccursInPrefixIff(st, |s|, sep, j);
    }
    FindIsFirst(st, sep, i);
  }

  /** Appending text after the first separator only extends the rest. */
  lemma SplitAppendStep(s: string, t: string, sep: string, i: nat)
    requires |sep| > 0
    requires Find(s, sep, 0) == Some(i)
    ensures i + |sep| <= |s|
    ensures Split(s + t, sep) == [s[..i]] + Split(s[i + |sep|..] + t, sep)
  {
    var st := s + t;
    FindAppend(s, t, sep, i);
    SplitUnfold(st, sep, i);
    assert st[..i] == s[..i];
    assert st[i + |sep|..] == s[i + |sep|..] + t;
  }

  /** Appending text never changes the pieces before the last one. */
  lemma {:induction false} SplitAppend(s: string, t: string, sep: string)
    requires |sep| > 0
    ensures |Split(s + t, sep)| >= |Split(s, sep)|
    ensures forall k :: 0 <= k < |Split(s, sep)| - 1 ==> Split(s + t, sep)[k] == Split(s, sep)[k]
    decreases |s|
  {
    match Find(s, sep, 0)
    case None =>
    case Some(i) =>
      var rest := s[i + |sep|..];
      SplitAppendStep(s, t, sep, i);
      SplitUnfold(s, sep, i);
      SplitAppend(rest, t, sep);
      var a, b := Split(s, sep), Split(s + t, sep);
      var a', b' := Split(rest, sep), Split(rest + t, sep);
      assert a == [s[..i]] + a';
      assert b == [s[..i]] + b';
      forall k | 0 < k < |a| - 1
        ensures b[k] == a[k]
      {
        assert a[k] == a'[k - 1];
        assert b[k] == b'[k - 1];
      }
  }
}
