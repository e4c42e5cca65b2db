/** Laws of the marker search at given positions of a reply: a `[` is needed for any marker, a
    marker pair around a clean fact is a match, and an opener whose group meets a newline or
    the end of the reply before a closer is no match. */
module ExtractLaws {
  import opened Wrappers
  import opened Text
  import opened Extract

  /** s holds the opener, the fact f and the closer, in a row, from position i on. */
  ghost predicate MarkedAt(s: string, i: nat, f: string)
  {
    && OpensAt(s, i)
    && i + |Open| + |f| <= |s|
    && s[i + |Open|..i + |Open| + |f|] == f
    && ClosesAt(s, i + |Open| + |f|)
  }

  /** Neither marker starts at a character other than `[`. */
  lemma {:induction false} NotBracketNotMarker(s: string, j: nat)
    requires j < |s| && s[j] != '['
    ensures !ClosesAt(s, j) && !OpensAt(s, j)
  {
    if j + |Open| <= |s| {
      assert s[j..j + |Open|][0] == s[j];
    }
    if j + |Close| <= |s| {
      assert s[j..j + |Close|][0] == s[j];
    }
  }

  /** The search steps over text without `[`. */
  lemma {:induction false} ScanSkips(s: string, j: nat, e: nat)
    requires j <= e <= |s|
    requires forall x :: j <= x < e ==> s[x] != '['
    ensures Scan(s, j) == Scan(s, e)
    decreases e - j
  {
    if j < e {
      NotBracketNotMarker(s, j);
      ScanAtMiss(s, j);
      ScanSkips(s, j + 1, e);
    }
  }

  /** A reply without `[` passes through both calls: no fact, nothing deleted. */
  lemma {:induction false} PlainText(p: string)
    requires '[' !in p
    ensures NewFacts(p) == [] && RemoveMarkers(p) == p
  {
    ScanSkips(p, 0, |p|);
    assert p[0..] == p;
  }

  /** Only the first character of the closer is a `[`. */
  lemma {:induction false} CloseHasOneBracket(x: nat)
    requires 0 < x < |Close|
    ensures Close[x] != '['
  {
  }

  /** The characters of the fact inside a marked position. */
  lemma {:induction false} FactChar(s: string, i: nat, f: string, k: nat)
    requires MarkedAt(s, i, f) && k < |f|
    ensures s[i + |Open| + k] == f[k]
  {
    assert s[i + |Open|..i + |Open| + |f|][k] == s[i + |Open| + k];
  }

  /** No closer starts inside a clean fact between markers: one that fits in the fact would be
      a closer of the fact, and one that reaches into the closer behind it would hold a second
      `[`. */
  lemma {:induction false} NotClosedInFact(s: string, i: nat, f: string, k: nat)
    requires MarkedAt(s, i, f) && CleanFact(f) && k < |f|
    ensures !ClosesAt(s, i + |Open| + k)
  {
    var a := i + |Open|;
    var j := a + k;
    if k + |Close| <= |f| {
      SliceOfSlice(s, a, a + |f|, k, |Close|);
      assert !ClosesAt(f, k);
    } else if j + |Close| <= |s| {
      var e := a + |f|;
      assert s[e..e + |Close|][0] == s[e];
      assert s[j..j + |Close|][e - j] == s[e];
      CloseHasOneBracket(e - j);
    }
  }

  /** The closer search from j runs over text with no closer and no newline and stops at the
      closer at e. */
  lemma {:induction false} CloserAt(s: string, j: nat, e: nat)
    requires j <= e <= |s| && ClosesAt(s, e)
    requires forall x :: j <= x < e ==> !ClosesAt(s, x) && s[x] != '\n'
    ensures FindCloser(s, j) == Some(e)
    decreases e - j
  {
    if j < e {
      CloserAt(s, j + 1, e);
    }
  }

  /** The characters of a clean fact between markers are neither a newline nor the start of a
      closer. */
  lemma {:induction false} FactIsPlain(s: string, i: nat, f: string)
    requires MarkedAt(s, i, f) && CleanFact(f)
    ensures forall x :: i + |Open| <= x < i + |Open| + |f| ==> !ClosesAt(s, x) && s[x] != '\n'
  {
    forall x | i + |Open| <= x < i + |Open| + |f|
      ensures !ClosesAt(s, x) && s[x] != '\n'
    {
      var k := x - i - |Open|;
      FactChar(s, i, f, k);
      NotClosedInFact(s, i, f, k);
      assert f[k] in f;
    }
  }

  /** Wherever a clean fact stands between an opener and a closer, the pattern matches there,
      with its group the fact. */
  lemma {:induction false} MarkerMatches(s: string, i: nat, f: string)
    requires MarkedAt(s, i, f) && CleanFact(f)
    ensures MatchAt(s, i) == Some(i + |Open| + |f|)
  {
    FactIsPlain(s, i, f);
    CloserAt(s, i + |Open|, i + |Open| + |f|);
  }

  /** Through text without `[` or newline the closer search reaches the newline behind it and
      fails. */
  lemma {:induction false} NewlineStopsCloser(s: string, j: nat, e: nat)
    requires j <= e < |s| && s[e] == '\n'
    requires forall x :: j <= x < e ==> s[x] != '[' && s[x] != '\n'
    ensures FindCloser(s, j) == None
    decreases e - j
  {
    NotBracketNotMarker(s, j);
    if j < e {
      NewlineStopsCloser(s, j + 1, e);
    }
  }

  /** Through text without `[` the closer search reaches the end of the reply and fails. */
  lemma {:induction false} EndStopsCloser(s: string, j: nat)
    requires j <= |s|
    requires forall x :: j <= x < |s| ==> s[x] != '['
    ensures FindCloser(s, j) == None
    decreases |s| - j
  {
    if j < |s| {
      NotBracketNotMarker(s, j);
      EndStopsCloser(s, j + 1);
    }
  }

  /** An opener with no `[` after it is left in the reply with the text behind it. */
  lemma {:induction false} UnterminatedMarker(a: string)
    requires '[' !in a
    ensures NewFacts(Open + a) == [] && RemoveMarkers(Open + a) == Open + a
  {
    var s := Open + a;
    forall x | 1 <= x < |s| ensures s[x] != '[' {
      if x < |Open| {
        assert s[x] == Open[x];
      } else {
        assert s[x] == a[x - |Open|];
      }
    }
    EndStopsCloser(s, |Open|);
    ScanAtMiss(s, 0);
    ScanSkips(s, 1, |s|);
    assert s[0..] == s;
  }

  /** A fact without a newline and without a `/` is clean. */
  lemma {:induction false} NoSlashIsClean(f: string)
    requires '\n' !in f && '/' !in f
    ensures CleanFact(f)
  {
    forall k: nat ensures !ClosesAt(f, k) {
      if k + |Close| <= |f| {
        assert f[k..k + |Close|][1] == f[k + 1];
      }
    }
  }

  // ----- Replies assembled from pieces -----

  /** No `[` in s between positions j and e. */
  predicate NoBracket(s: string, j: nat, e: nat)
  {
    forall x :: j <= x < e && x < |s| ==> s[x] != '['
  }

  /** Text without `[` from j on, then a clean fact between markers at i: the search finds
      that marker first. */
  lemma {:induction false} ScanFindsMarker(s: string, j: nat, i: nat, f: string, c: nat, e: nat)
    requires j <= i && NoBracket(s, j, i) && MarkedAt(s, i, f) && CleanFact(f)
    requires c == i + |Open| + |f| && e == c + |Close|
    ensures Scan(s, j) == [Span(i, c)] + Scan(s, e)
  {
    ScanSkips(s, j, i);
    MarkerMatches(s, i, f);
    ScanAtMatchTo(s, i, c, e);
  }

  lemma {:induction false} ScanAtMatchTo(s: string, i: nat, c: nat, e: nat)
    requires i < |s| && MatchAt(s, i) == Some(c) && e == c + |Close|
    ensures Scan(s, i) == [Span(i, c)] + Scan(s, e)
  {
  }

  /** What the two calls give for a reply whose only span is [i, k). */
  lemma {:induction false} OneSpan(s: string, i: nat, k: nat)
    requires i + |Open| <= k && k + |Close| <= |s|
    requires Scan(s, 0) == [Span(i, k)]
    ensures NewFacts(s) == [s[i + |Open|..k]]
    ensures RemoveMarkers(s) == s[..i] + s[k + |Close|..]
  {
    var ms := [Span(i, k)];
    assert ms[1..] == [];
    assert Groups(s, 0, ms) == [s[i + |Open|..k]] + Groups(s, k + |Close|, []);
    assert Remainder(s, 0, ms) == s[0..i] + Remainder(s, k + |Close|, []);
    assert s[0..i] == s[..i];
  }

  /** What the two calls give for a reply whose only spans are the markers at i and at j: the
      two groups f and g, and the text outside both spans. */
  lemma {:induction false} TwoSpans(s: string, i: nat, k: nat, e: nat, j: nat, l: nat, d: nat, f: string, g: string)
    requires i + |Open| <= k && e == k + |Close| && e <= j
    requires j + |Open| <= l && d == l + |Close| && d <= |s|
    requires Scan(s, 0) == [Span(i, k), Span(j, l)]
    requires s[i + |Open|..k] == f && s[j + |Open|..l] == g
    ensures NewFacts(s) == [f, g]
    ensures RemoveMarkers(s) == s[..i] + s[e..j] + s[d..]
  {
    TwoGroups(s, i, k, e, j, l, d, f, g);
    TwoRemainders(s, i, k, e, j, l, d);
  }

  lemma {:induction false} TwoGroups(s: string, i: nat, k: nat, e: nat, j: nat, l: nat, d: nat, f: string, g: string)
    requires i + |Open| <= k && e == k + |Close| && e <= j
    requires j + |Open| <= l && d == l + |Close| && d <= |s|
    requires Ordered(s, 0, [Span(i, k), Span(j, l)])
    requires s[i + |Open|..k] == f && s[j + |Open|..l] == g
    ensures Groups(s, 0, [Span(i, k), Span(j, l)]) == [f, g]
  {
    var ms := [Span(i, k), Span(j, l)];
    assert ms[1..] == [Span(j, l)];
    assert ms[1..][1..] == [];
    assert Groups(s, e, [Span(j, l)]) == [g] + Groups(s, d, []);
    assert Groups(s, 0, ms) == [f] + Groups(s, e, [Span(j, l)]);
  }

  lemma {:induction false} TwoRemainders(s: string, i: nat, k: nat, e: nat, j: nat, l: nat, d: nat)
    requires i + |Open| <= k && e == k + |Close| && e <= j
    requires j + |Open| <= l && d == l + |Close| && d <= |s|
    requires Ordered(s, 0, [Span(i, k), Span(j, l)])
    ensures Remainder(s, 0, [Span(i, k), Span(j, l)]) == s[..i] + s[e..j] + s[d..]
  {
    var ms := [Span(i, k), Span(j, l)];
    assert ms[1..] == [Span(j, l)];
    assert ms[1..][1..] == [];
    assert Remainder(s, e, [Span(j, l)]) == s[e..j] + Remainder(s, d, []);
    assert Remainder(s, 0, ms) == s[0..i] + Remainder(s, e, [Span(j, l)]);
    assert s[0..i] == s[..i];
  }

  /** The fact of a marked position, as a slice up to the closer. */
  lemma {:induction false} FactSlice(s: string, i: nat, f: string, k: nat)
    requires MarkedAt(s, i, f) && k == i + |Open| + |f|
    ensures s[i + |Open|..k] == f
  {
  }

  /** One clean fact between markers at i, no `[` elsewhere: the fact is saved, and the text
      before the opener and after the closer is kept. */
  lemma {:induction false} OneMarkerAt(s: string, i: nat, f: string, k: nat, e: nat)
    requires MarkedAt(s, i, f) && CleanFact(f) && k == i + |Open| + |f| && e == k + |Close|
    requires NoBracket(s, 0, i) && NoBracket(s, e, |s|)
    ensures NewFacts(s) == [f]
    ensures RemoveMarkers(s) == s[..i] + s[e..]
  {
    ScanFindsMarker(s, 0, i, f, k, e);
    ScanSkips(s, e, |s|);
    OneSpan(s, i, k);
  }

  /** Two clean facts between markers at i and j, no `[` elsewhere: both facts are saved, in
      order, and the text around the markers is kept. */
  lemma {:induction false} TwoMarkersAt(s: string, i: nat, f: string, k: nat, e: nat,
                                        j: nat, g: string, l: nat, d: nat)
    requires MarkedAt(s, i, f) && CleanFact(f) && k == i + |Open| + |f| && e == k + |Close|
    requires MarkedAt(s, j, g) && CleanFact(g) && l == j + |Open| + |g| && d == l + |Close|
    requires e <= j && NoBracket(s, 0, i) && NoBracket(s, e, j) && NoBracket(s, d, |s|)
    ensures NewFacts(s) == [f, g]
    ensures RemoveMarkers(s) == s[..i] + s[e..j] + s[d..]
  {
    TwoMarkersScan(s, i, f, k, e, j, g, l, d);
    FactSlice(s, i, f, k);
    FactSlice(s, j, g, l);
    TwoSpans(s, i, k, e, j, l, d, f, g);
  }

  /** The search finds exactly the two markers. */
  lemma {:induction false} TwoMarkersScan(s: string, i: nat, f: string, k: nat, e: nat,
                                          j: nat, g: string, l: nat, d: nat)
    requires MarkedAt(s, i, f) && CleanFact(f) && k == i + |Open| + |f| && e == k + |Close|
    requires MarkedAt(s, j, g) && CleanFact(g) && l == j + |Open| + |g| && d == l + |Close|
    requires e <= j && NoBracket(s, 0, i) && NoBracket(s, e, j) && NoBracket(s, d, |s|)
    ensures Scan(s, 0) == [Span(i, k), Span(j, l)]
  {
    var m, n := Span(i, k), Span(j, l);
    ScanFindsMarker(s, 0, i, f, k, e);
    ScanFindsMarker(s, e, j, g, l, d);
    ScanSkips(s, d, |s|);
    assert Scan(s, e) == [n];
    assert Scan(s, 0) == [m] + [n] == [m, n];
  }

  /** Text and markers of t stay where they are when more text follows. */
  lemma {:induction false} KeepsText(t: string, x: string, j: nat, e: nat)
    requires j <= e <= |t|
    ensures (t + x)[j..e] == t[j..e]
    ensures NoBracket(t, j, e) ==> NoBracket(t + x, j, e)
  {
    var s := t + x;
    assert forall y :: 0 <= y < e - j ==> s[j..e][y] == t[j..e][y];
  }

  lemma {:induction false} KeepsMarker(t: string, x: string, i: nat, f: string)
    requires MarkedAt(t, i, f)
    ensures MarkedAt(t + x, i, f)
  {
    var k := i + |Open| + |f|;
    KeepsText(t, x, i, i + |Open|);
    KeepsText(t, x, i + |Open|, k);
    KeepsText(t, x, k, k + |Close|);
  }

  /** The text that ends t + c. */
  lemma {:induction false} Tail(t: string, c: string)
    ensures (t + c)[|t|..] == c
    ensures '[' !in c ==> NoBracket(t + c, |t|, |t + c|)
  {
    var s := t + c;
    assert forall y :: 0 <= y < |c| ==> s[|t|..][y] == c[y];
  }

  /** The opener, the fact f and the closer after a. */
  lemma {:induction false} MarkedIn(a: string, f: string)
    ensures MarkedAt(a + Open + f + Close, |a|, f)
    ensures '[' !in a ==> NoBracket(a + Open + f + Close, 0, |a|)
    ensures (a + Open + f + Close)[..|a|] == a
  {
    OpenerPlaced(a, f);
    FactPlaced(a, f);
    CloserPlaced(a, f);
    PrefixPlaced(a, f);
  }

  lemma {:induction false} OpenerPlaced(a: string, f: string)
    ensures OpensAt(a + Open + f + Close, |a|)
  {
    var p, q := |a|, |a| + |Open|;
    Tail(a, Open);
    KeepsText(a + Open, f, p, q);
    KeepsText(a + Open + f, Close, p, q);
  }

  lemma {:induction false} FactPlaced(a: string, f: string)
    ensures (a + Open + f + Close)[|a| + |Open|..|a| + |Open| + |f|] == f
  {
    var q, r := |a| + |Open|, |a| + |Open| + |f|;
    Tail(a + Open, f);
    KeepsText(a + Open + f, Close, q, r);
  }

  lemma {:induction false} CloserPlaced(a: string, f: string)
    ensures ClosesAt(a + Open + f + Close, |a| + |Open| + |f|)
  {
    Tail(a + Open + f, Close);
  }

  lemma {:induction false} PrefixPlaced(a: string, f: string)
    ensures '[' !in a ==> NoBracket(a + Open + f + Close, 0, |a|)
    ensures (a + Open + f + Close)[..|a|] == a
  {
    var s := a + Open + f + Close;
    assert forall y :: 0 <= y < |a| ==> s[..|a|][y] == a[y];
  }

  /** One marked fact with plain text around it: the fact is saved and the text kept. */
  lemma {:induction false} OneMarkedFact(a: string, f: string, c: string)
    requires '[' !in a && '[' !in c && CleanFact(f)
    ensures NewFacts(a + Open + f + Close + c) == [f]
    ensures RemoveMarkers(a + Open + f + Close + c) == a + c
  {
    var u := a + Open + f + Close;
    var s := u + c;
    var k := |a| + |Open| + |f|;
    MarkedIn(a, f);
    KeepsMarker(u, c, |a|, f);
    KeepsText(u, c, 0, |a|);
    Tail(u, c);
    OneMarkerAt(s, |a|, f, k, |u|);
    assert s[..|a|] == s[0..|a|];
    assert u[..|a|] == u[0..|a|];
  }

  /** Two marked facts with plain text around them: both facts are saved, in order, and the
      text around them is kept. */
  lemma {:induction false} TwoMarkedFacts(a: string, f: string, b: string, g: string, c: string)
    requires '[' !in a && '[' !in b && '[' !in c && CleanFact(f) && CleanFact(g)
    ensures NewFacts(a + Open + f + Close + b + Open + g + Close + c) == [f, g]
    ensures RemoveMarkers(a + Open + f + Close + b + Open + g + Close + c) == a + b + c
  {
    var u := a + Open + f + Close;
    var w := u + b;
    var v := w + Open + g + Close;
    var s := v + c;
    FirstOfTwo(a, f, b, g, c, u, w, v, s);
    BetweenTwo(a, f, b, g, c, u, w, v, s);
    SecondOfTwo(a, f, b, g, c, u, w, v, s);
    TwoMarkersAt(s, |a|, f, |a| + |Open| + |f|, |u|, |w|, g, |w| + |Open| + |g|, |v|);
  }

  /** The pieces of a + Open + f + Close + b + Open + g + Close + c. */
  ghost predicate TwoPieces(a: string, f: string, b: string, g: string, c: string,
                            u: string, w: string, v: string, s: string)
  {
    u == a + Open + f + Close && w == u + b && v == w + Open + g + Close && s == v + c
  }

  lemma {:induction false} FirstOfTwo(a: string, f: string, b: string, g: string, c: string,
                                      u: string, w: string, v: string, s: string)
    requires TwoPieces(a, f, b, g, c, u, w, v, s) && '[' !in a
    ensures MarkedAt(s, |a|, f) && NoBracket(s, 0, |a|) && s[..|a|] == a
  {
    MarkedIn(a, f);
    KeepsMarker(u, b, |a|, f);
    KeepsText(u, b, 0, |a|);
    KeepsMarker(w, Open + g + Close, |a|, f);
    KeepsText(w, Open + g + Close, 0, |a|);
    assert v == w + (Open + g + Close);
    KeepsMarker(v, c, |a|, f);
    KeepsText(v, c, 0, |a|);
    assert s[..|a|] == s[0..|a|];
    assert u[..|a|] == u[0..|a|];
  }

  lemma {:induction false} BetweenTwo(a: string, f: string, b: string, g: string, c: string,
                                      u: string, w: string, v: string, s: string)
    requires TwoPieces(a, f, b, g, c, u, w, v, s) && '[' !in b
    ensures NoBracket(s, |u|, |w|) && s[|u|..|w|] == b
  {
    Tail(u, b);
    KeepsText(w, Open + g + Close, |u|, |w|);
    assert v == w + (Open + g + Close);
    KeepsText(v, c, |u|, |w|);
    assert w[|u|..] == w[|u|..|w|];
  }

  lemma {:induction false} SecondOfTwo(a: string, f: string, b: string, g: string, c: string,
                                       u: string, w: string, v: string, s: string)
    requires TwoPieces(a, f, b, g, c, u, w, v, s) && '[' !in c
    ensures MarkedAt(s, |w|, g) && NoBracket(s, |v|, |s|) && s[|v|..] == c
  {
    MarkedIn(w, g);
    KeepsMarker(v, c, |w|, g);
    Tail(v, c);
  }
}
