/** Memory-marker extraction (vector_memory.py lines 102 and 106). The reply is searched with
    the pattern `\[SAVE_MEMORY\](.*?)\[/SAVE_MEMORY\]`: `re.sub` deletes every match and
    `re.findall` returns every group. Both calls use the same pattern (the group does not change
    what matches), so both are modelled over one left-to-right search with Python's `re`
    semantics: at each position the pattern is tried; on success the search resumes at the end
    of the match, otherwise one character further on. There is no DOTALL flag, so `.` does not
    match a newline, and `*?` is lazy, so a match ends at the first closer after its opener. */
module Extract {
  import opened Wrappers
  import opened Text

  const Open: string := "[SAVE_MEMORY]"
  const Close: string := "[/SAVE_MEMORY]"

  predicate OpensAt(s: string, i: nat)
  {
    i + |Open| <= |s| && s[i..i + |Open|] == Open
  }

  predicate ClosesAt(s: string, j: nat)
  {
    j + |Close| <= |s| && s[j..j + |Close|] == Close
  }

  /** No newline in s[a..b]. */
  predicate NoNewline(s: string, a: nat, b: nat)
  {
    forall k :: a <= k < b && k < |s| ==> s[k] != '\n'
  }

  /** The pattern matches s at i with its closer at c: an opener at i, a closer at c, no newline
      between them and no earlier closer after the opener (the lazy `.*?` stops at the first). */
  ghost predicate IsMatch(s: string, i: nat, c: nat)
  {
    && OpensAt(s, i)
    && i + |Open| <= c
    && ClosesAt(s, c)
    && NoNewline(s, i + |Open|, c)
    && forall k: nat :: i + |Open| <= k < c ==> !ClosesAt(s, k)
  }

  /** No match of the pattern starts anywhere in [a, b). */
  ghost predicate NoMatchIn(s: string, a: nat, b: nat)
  {
    forall p: nat, c: nat :: a <= p < b ==> !IsMatch(s, p, c)
  }

  /** One match: the opener starts at `start`, the closer at `closer`. */
  datatype Span = Span(start: nat, closer: nat)
  {
    function End(): nat
    {
      closer + |Close|
    }
  }

  /** The spans follow each other from position i on, each inside s, none overlapping, each
      starting with an opener and ending with a closer. */
  predicate Ordered(s: string, i: nat, ms: seq<Span>)
    decreases |ms|
  {
    ms == [] || (
      && i <= ms[0].start
      && ms[0].start + |Open| <= ms[0].closer
      && OpensAt(s, ms[0].start)
      && ClosesAt(s, ms[0].closer)
      && Ordered(s, ms[0].End(), ms[1..]))
  }

  /** What `.*?\[/SAVE_MEMORY\]` does from position j: try the closer here; otherwise let `.`
      take one character, which fails at a newline or at the end of s. */
  function FindCloser(s: string, j: nat): (r: Option<nat>)
    requires j <= |s|
    decreases |s| - j
    ensures r.Some? ==> j <= r.value && ClosesAt(s, r.value)
  {
    if ClosesAt(s, j) then Some(j)
    else if j == |s| || s[j] == '\n' then None
    else FindCloser(s, j + 1)
  }

  /** Tries the pattern at position i; on success yields the position of the closer. */
  function MatchAt(s: string, i: nat): (r: Option<nat>)
    ensures r.Some? ==> OpensAt(s, i) && i + |Open| <= r.value && ClosesAt(s, r.value)
  {
    if OpensAt(s, i) then FindCloser(s, i + |Open|) else None
  }

  /** The search for the closer finds the first closer from j on, and fails exactly when a
      newline comes before every closer. */
  lemma {:induction false} FindCloserIsFirst(s: string, j: nat)
    requires j <= |s|
    ensures FindCloser(s, j).Some? ==>
      var c := FindCloser(s, j).value;
      ClosesAt(s, c) && NoNewline(s, j, c) && forall k: nat :: j <= k < c ==> !ClosesAt(s, k)
    ensures FindCloser(s, j).None? ==> forall c: nat :: j <= c && ClosesAt(s, c) ==> !NoNewline(s, j, c)
    decreases |s| - j
  {
    if !ClosesAt(s, j) && j < |s| && s[j] != '\n' {
      FindCloserIsFirst(s, j + 1);
    }
  }

  /** MatchAt succeeds exactly on a match of the pattern, and then finds its (only) closer. */
  lemma {:induction false} MatchAtIsMatch(s: string, i: nat)
    ensures MatchAt(s, i).Some? ==> IsMatch(s, i, MatchAt(s, i).value)
    ensures MatchAt(s, i).None? ==> forall c: nat :: !IsMatch(s, i, c)
  {
    if OpensAt(s, i) {
      FindCloserIsFirst(s, i + |Open|);
    }
  }

  /** The matches of Python's leftmost, non-overlapping search from i: no match starts before
      the first one, each one is the match at its start, and the search resumes at its end. */
  ghost predicate Leftmost(s: string, i: nat, ms: seq<Span>)
    decreases |ms|
  {
    if ms == [] then
      NoMatchIn(s, i, |s|)
    else
      && i <= ms[0].start
      && NoMatchIn(s, i, ms[0].start)
      && IsMatch(s, ms[0].start, ms[0].closer)
      && Leftmost(s, ms[0].End(), ms[1..])
  }

  /** The matches Python's `re` finds in s[i..], in order (what `re.finditer` yields). */
  function Scan(s: string, i: nat): (ms: seq<Span>)
    requires i <= |s|
    decreases |s| - i
    ensures Ordered(s, i, ms)
  {
    if i == |s| then
      []
    else
      match MatchAt(s, i)
      case Some(c) =>
        var rest := Scan(s, c + |Close|);
        assert ([Span(i, c)] + rest)[1..] == rest;
        [Span(i, c)] + rest
      case None =>
        Scan(s, i + 1)
  }

  /** The text of s[i..] outside the spans ms. */
  function Remainder(s: string, i: nat, ms: seq<Span>): string
    requires i <= |s| && Ordered(s, i, ms)
    decreases |ms|
  {
    if ms == [] then s[i..] else s[i..ms[0].start] + Remainder(s, ms[0].End(), ms[1..])
  }

  /** The group of each span of ms: the text between its opener and its closer. */
  function Groups(s: string, i: nat, ms: seq<Span>): seq<string>
    requires Ordered(s, i, ms)
    decreases |ms|
  {
    if ms == [] then [] else [s[ms[0].start + |Open|..ms[0].closer]] + Groups(s, ms[0].End(), ms[1..])
  }

  /** The pieces of s[i..] around the spans ms: the text before each span, then the tail. */
  function Gaps(s: string, i: nat, ms: seq<Span>): (ps: seq<string>)
    requires i <= |s| && Ordered(s, i, ms)
    decreases |ms|
  {
    if ms == [] then [s[i..]] else [s[i..ms[0].start]] + Gaps(s, ms[0].End(), ms[1..])
  }

  function Concat(ps: seq<string>): string
  {
    if ps == [] then [] else ps[0] + Concat(ps[1..])
  }

  /** Puts each fact back between two pieces, wrapped in its markers. */
  function Weave(ps: seq<string>, facts: seq<string>): string
    requires |ps| == |facts| + 1
  {
    if facts == [] then ps[0] else ps[0] + Open + facts[0] + Close + Weave(ps[1..], facts[1..])
  }

  /** `re.sub(pattern, '', response)`: the reply with every match deleted. */
  function RemoveMarkers(response: string): string
  {
    Remainder(response, 0, Scan(response, 0))
  }

  /** vector_memory.py line 102: the reply as shown to the user. */
  function Cleaned(response: string): (r: string)
    ensures r == [] || (!IsSpace(r[0]) && !IsSpace(r[|r| - 1]))
  {
    Strip(RemoveMarkers(response))
  }

  /** vector_memory.py line 106, `re.findall(pattern, response)`: the facts to be saved. */
  function NewFacts(response: string): seq<string>
  {
    Groups(response, 0, Scan(response, 0))
  }

  /** A fact as `findall` can return it: no newline (`.` excludes it) and no closer inside. */
  ghost predicate CleanFact(f: string)
  {
    '\n' !in f && forall k: nat :: !ClosesAt(f, k)
  }

  /** How many characters the spans of the given facts occupy, markers included. */
  function Marked(facts: seq<string>): nat
  {
    if facts == [] then 0 else |Open| + |facts[0]| + |Close| + Marked(facts[1..])
  }

  // ----- The search is Python's leftmost, non-overlapping search -----

  /** A position where the pattern does not match can be put in front of a leftmost search. */
  lemma {:induction false} LeftmostFromNext(s: string, i: nat, ms: seq<Span>)
    requires MatchAt(s, i).None? && Leftmost(s, i + 1, ms)
    ensures Leftmost(s, i, ms)
  {
    MatchAtIsMatch(s, i);
  }

  /** A match can be put in front of a leftmost search that starts at its end. */
  lemma {:induction false} LeftmostFromMatch(s: string, i: nat, c: nat, ms: seq<Span>)
    requires IsMatch(s, i, c) && Leftmost(s, c + |Close|, ms)
    ensures Leftmost(s, i, [Span(i, c)] + ms)
  {
    assert ([Span(i, c)] + ms)[1..] == ms;
  }

  /** One step of the search at a match. */
  lemma {:induction false} ScanStepsOverMatch(s: string, i: nat, c: nat)
    requires i < |s| && MatchAt(s, i) == Some(c)
    requires Leftmost(s, c + |Close|, Scan(s, c + |Close|))
    ensures Leftmost(s, i, Scan(s, i))
  {
    ScanAtMatch(s, i, c);
    MatchAtIsMatch(s, i);
    LeftmostFromMatch(s, i, c, Scan(s, c + |Close|));
  }

  /** One step of the search where the pattern does not match. */
  lemma {:induction false} ScanStepsOverMiss(s: string, i: nat)
    requires i < |s| && MatchAt(s, i).None?
    requires Leftmost(s, i + 1, Scan(s, i + 1))
    ensures Leftmost(s, i, Scan(s, i))
  {
    ScanAtMiss(s, i);
    LeftmostFromNext(s, i, Scan(s, i + 1));
  }

  /** Scan performs the leftmost, non-overlapping search. */
  lemma {:induction false} ScanIsLeftmost(s: string, i: nat)
    requires i <= |s|
    ensures Leftmost(s, i, Scan(s, i))
    decreases |s| - i
  {
    if i < |s| {
      match MatchAt(s, i)
      case Some(c) =>
        ScanIsLeftmost(s, c + |Close|);
        ScanStepsOverMatch(s, i, c);
      case None =>
        ScanIsLeftmost(s, i + 1);
        ScanStepsOverMiss(s, i);
    }
  }

  /** Scan at a match: the match, then the scan from its end. */
  lemma {:induction false} ScanAtMatch(s: string, i: nat, c: nat)
    requires i < |s| && MatchAt(s, i) == Some(c)
    ensures Scan(s, i) == [Span(i, c)] + Scan(s, c + |Close|)
  {
  }

  /** Scan where the pattern does not match: the scan from the next position. */
  lemma {:induction false} ScanAtMiss(s: string, i: nat)
    requires i < |s| && MatchAt(s, i).None?
    ensures Scan(s, i) == Scan(s, i + 1)
  {
  }

  /** A match has one closer: the first after its opener. */
  lemma {:induction false} MatchClosesOnce(s: string, i: nat, c: nat, d: nat)
    requires IsMatch(s, i, c) && IsMatch(s, i, d)
    ensures c == d
  {
  }

  /** A leftmost search that does not start with a match at i is one from i + 1. */
  lemma {:induction false} LeftmostSkips(s: string, i: nat, ms: seq<Span>)
    requires i < |s| && Leftmost(s, i, ms) && (ms == [] || ms[0].start != i)
    ensures MatchAt(s, i).None? && Leftmost(s, i + 1, ms)
  {
    MatchAtIsMatch(s, i);
  }

  /** Where the pattern matches, MatchAt finds that match. */
  lemma {:induction false} MatchAtFinds(s: string, i: nat, c: nat)
    requires IsMatch(s, i, c)
    ensures MatchAt(s, i) == Some(c)
  {
    MatchAtIsMatch(s, i);
    MatchClosesOnce(s, i, c, MatchAt(s, i).value);
  }

  lemma {:induction false} HeadTail(ms: seq<Span>)
    requires ms != []
    ensures ms == [ms[0]] + ms[1..]
  {
  }

  /** A leftmost search that starts with a match at i continues as one from its end. */
  lemma {:induction false} LeftmostTakes(s: string, i: nat, ms: seq<Span>)
    requires Leftmost(s, i, ms) && ms != [] && ms[0].start == i
    ensures IsMatch(s, i, ms[0].closer) && Leftmost(s, ms[0].End(), ms[1..])
  {
  }

  /** No match starts at the end of the text. */
  lemma {:induction false} LeftmostAtEnd(s: string, ms: seq<Span>)
    requires Leftmost(s, |s|, ms)
    ensures ms == []
  {
  }

  /** One step of the uniqueness proof at a match. */
  lemma {:induction false} UniqueOverMatch(s: string, i: nat, c: nat, ms: seq<Span>)
    requires i < |s| && MatchAt(s, i) == Some(c)
    requires ms != [] && ms[0].start == i && ms[0].closer == c && ms[1..] == Scan(s, ms[0].End())
    ensures ms == Scan(s, i)
  {
    assert ms[0] == Span(i, c) && ms[0].End() == c + |Close|;
    ScanAtMatch(s, i, c);
    HeadTail(ms);
  }

  /** One step of the uniqueness proof where the pattern does not match. */
  lemma {:induction false} UniqueOverMiss(s: string, i: nat, ms: seq<Span>)
    requires i < |s| && Leftmost(s, i, ms) && (ms == [] || ms[0].start != i)
    requires ms == Scan(s, i + 1)
    ensures ms == Scan(s, i)
  {
    LeftmostSkips(s, i, ms);
    ScanAtMiss(s, i);
  }

  /** There is only one leftmost sequence of matches: the one Scan computes. */
  lemma {:induction false} LeftmostIsUnique(s: string, i: nat, ms: seq<Span>)
    requires i <= |s| && Leftmost(s, i, ms)
    ensures ms == Scan(s, i)
    decreases |s| - i
  {
    if i == |s| {
      LeftmostAtEnd(s, ms);
    } else if ms != [] && ms[0].start == i {
      LeftmostTakes(s, i, ms);
      LeftmostIsUnique(s, ms[0].End(), ms[1..]);
      MatchAtFinds(s, i, ms[0].closer);
      UniqueOverMatch(s, i, ms[0].closer, ms);
    } else {
      LeftmostSkips(s, i, ms);
      LeftmostIsUnique(s, i + 1, ms);
      UniqueOverMiss(s, i, ms);
    }
  }

  // ----- What the two calls return -----

  /** A window of a slice is a window of the sequence. */
  lemma {:induction false} SliceOfSlice(s: string, a: nat, b: nat, k: nat, n: nat)
    requires a <= b <= |s| && k + n <= b - a
    ensures s[a..b][k..k + n] == s[a + k..a + k + n]
  {
    var u := s[a..b][k..k + n];
    var v := s[a + k..a + k + n];
    assert forall x :: 0 <= x < n ==> u[x] == v[x];
  }

  /** No closer lies inside the group of a match. */
  lemma {:induction false} NoCloserInGroup(s: string, i: nat, c: nat, k: nat)
    requires IsMatch(s, i, c)
    ensures !ClosesAt(s[i + |Open|..c], k)
  {
    if k + |Close| <= c - (i + |Open|) {
      SliceOfSlice(s, i + |Open|, c, k, |Close|);
      assert !ClosesAt(s, i + |Open| + k);
    }
  }

  /** Every group of a leftmost search is a clean fact. */
  lemma {:induction false} GroupsAreClean(s: string, i: nat, ms: seq<Span>)
    requires Ordered(s, i, ms) && Leftmost(s, i, ms)
    ensures forall f :: f in Groups(s, i, ms) ==> CleanFact(f)
    decreases |ms|
  {
    if ms != [] {
      var m := ms[0];
      var f := s[m.start + |Open|..m.closer];
      forall k: nat ensures !ClosesAt(f, k) {
        NoCloserInGroup(s, m.start, m.closer, k);
      }
      assert '\n' !in f by {
        assert forall x :: 0 <= x < |f| ==> f[x] == s[m.start + |Open| + x];
      }
      GroupsAreClean(s, m.End(), ms[1..]);
    }
  }

  /** Every extracted fact is free of newlines and closers (it may hold an opener). */
  lemma {:induction false} NewFactsAreClean(response: string)
    ensures forall f :: f in NewFacts(response) ==> CleanFact(f)
  {
    ScanIsLeftmost(response, 0);
    GroupsAreClean(response, 0, Scan(response, 0));
  }

  lemma {:induction false} GroupsCount(s: string, i: nat, ms: seq<Span>)
    requires Ordered(s, i, ms)
    ensures |Groups(s, i, ms)| == |ms|
    decreases |ms|
  {
    if ms != [] {
      GroupsCount(s, ms[0].End(), ms[1..]);
    }
  }

  /** The deleted text is one opener, one group and one closer per fact: the lengths add up. */
  lemma {:induction false} RemainderLength(s: string, i: nat, ms: seq<Span>)
    requires i <= |s| && Ordered(s, i, ms)
    ensures |Remainder(s, i, ms)| + Marked(Groups(s, i, ms)) == |s| - i
    decreases |ms|
  {
    if ms != [] {
      RemainderLength(s, ms[0].End(), ms[1..]);
      assert Groups(s, i, ms)[1..] == Groups(s, ms[0].End(), ms[1..]);
    }
  }

  /** The remainder is the pieces between the spans, joined. */
  lemma {:induction false} RemainderIsGaps(s: string, i: nat, ms: seq<Span>)
    requires i <= |s| && Ordered(s, i, ms)
    ensures Remainder(s, i, ms) == Concat(Gaps(s, i, ms))
    decreases |ms|
  {
    if ms != [] {
      RemainderIsGaps(s, ms[0].End(), ms[1..]);
      assert Gaps(s, i, ms)[1..] == Gaps(s, ms[0].End(), ms[1..]);
    }
  }

  lemma {:induction false} SplitFive(s: string, i: nat, a: nat, b: nat, c: nat, e: nat)
    requires i <= a <= b <= c <= e <= |s|
    ensures s[i..] == s[i..a] + s[a..b] + s[b..c] + s[c..e] + s[e..]
  {
  }

  /** Weaving the groups back between the pieces restores the text. */
  lemma {:induction false} WeaveRestores(s: string, i: nat, ms: seq<Span>)
    requires i <= |s| && Ordered(s, i, ms)
    ensures |Gaps(s, i, ms)| == |Groups(s, i, ms)| + 1
    ensures Weave(Gaps(s, i, ms), Groups(s, i, ms)) == s[i..]
    decreases |ms|
  {
    if ms != [] {
      var m := ms[0];
      WeaveRestores(s, m.End(), ms[1..]);
      assert Gaps(s, i, ms)[1..] == Gaps(s, m.End(), ms[1..]);
      assert Groups(s, i, ms)[1..] == Groups(s, m.End(), ms[1..]);
      SplitFive(s, i, m.start, m.start + |Open|, m.closer, m.End());
    }
  }

  /** `sub` and `findall` split the reply between them: the reply is what `sub` keeps with
      each fact `findall` returns put back, in its markers, where it was deleted. */
  lemma {:induction false} ExtractionRoundTrip(response: string)
    ensures var ps := Gaps(response, 0, Scan(response, 0));
      && RemoveMarkers(response) == Concat(ps)
      && |ps| == |NewFacts(response)| + 1
      && Weave(ps, NewFacts(response)) == response
  {
    RemainderIsGaps(response, 0, Scan(response, 0));
    WeaveRestores(response, 0, Scan(response, 0));
  }

  /** One fact per deleted match: `sub` removes exactly the spans whose groups `findall`
      returns, and the characters removed are those spans' openers, groups and closers. */
  lemma {:induction false} ExtractionAgrees(response: string)
    ensures var ms := Scan(response, 0);
      && Leftmost(response, 0, ms)
      && |NewFacts(response)| == |ms|
      && |RemoveMarkers(response)| + Marked(NewFacts(response)) == |response|
  {
    ScanIsLeftmost(response, 0);
    RemainderLength(response, 0, Scan(response, 0));
    GroupsCount(response, 0, Scan(response, 0));
  }

  /** When every opener is followed by a newline before any closer (in particular when there is
      no opener, or no closer after an opener), the search finds nothing. */
  lemma {:induction false} NoMatchScansEmpty(s: string, i: nat)
    requires i <= |s|
    requires forall p: nat, c: nat :: OpensAt(s, p) && p + |Open| <= c && ClosesAt(s, c) ==> '\n' in s[p + |Open|..c]
    ensures Scan(s, i) == []
    decreases |s| - i
  {
    if i < |s| {
      MatchAtIsMatch(s, i);
      assert MatchAt(s, i).None?;
      NoMatchScansEmpty(s, i + 1);
    }
  }

  /** The pass-through cases: nothing is saved and the reply is shown only stripped, an
      unterminated opener included. */
  lemma {:induction false} NoMatchPassThrough(response: string)
    requires forall p: nat, c: nat :: OpensAt(response, p) && p + |Open| <= c && ClosesAt(response, c) ==> '\n' in response[p + |Open|..c]
    ensures NewFacts(response) == [] && RemoveMarkers(response) == response
    ensures Cleaned(response) == Strip(response)
  {
    NoMatchScansEmpty(response, 0);
  }
}
