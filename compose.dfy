/** Prompt composition: the memory block of `retrieve_memories` (vector_memory.py lines
    136-138) and the two-section prompt of `main` (line 95). Each builder has a parser as its
    partner, and the round-trip lemmas show the builders lose nothing. */
module Compose {
  import opened Wrappers

  const NoMemories: string := "No relevant memories found."
  const BulletMark: string := "- "
  const MemoryHeader: string := "[MEMORY CONTEXT]\n"
  const QueryHeader: string := "[CURRENT QUERY]\n"
  const BlankLine: string := "\n\n"

  function Bullet(text: string): string
  {
    BulletMark + text
  }

  /** The list comprehension of line 137: one bullet per match, in the order given. */
  function Bullets(texts: seq<string>): (ls: seq<string>)
    ensures |ls| == |texts|
  {
    seq(|texts|, i requires 0 <= i < |texts| => Bullet(texts[i]))
  }

  /** `"\n".join(ls)`. */
  function JoinLines(ls: seq<string>): string
    decreases |ls|
  {
    if ls == [] then "" else if |ls| == 1 then ls[0] else ls[0] + "\n" + JoinLines(ls[1..])
  }

  /** vector_memory.py lines 136-138: the bullet block, or the sentinel when nothing matched. */
  function RenderMemories(texts: seq<string>): string
  {
    if texts == [] then NoMemories else JoinLines(Bullets(texts))
  }

  /** vector_memory.py line 95. */
  function ContextPrompt(block: string, query: string): string
  {
    MemoryHeader + block + BlankLine + QueryHeader + query
  }

  // ----- Parsers -----

  /** The first newline of s at or after i, if any. */
  function FindNewline(s: string, i: nat): (r: Option<nat>)
    requires i <= |s|
    decreases |s| - i
    ensures r.Some? ==> i <= r.value < |s| && s[r.value] == '\n'
    ensures r.Some? ==> forall k :: i <= k < r.value ==> s[k] != '\n'
    ensures r.None? ==> forall k :: i <= k < |s| ==> s[k] != '\n'
  {
    if i == |s| then None else if s[i] == '\n' then Some(i) else FindNewline(s, i + 1)
  }

  /** `s.split("\n")`. */
  function SplitLines(s: string): (ls: seq<string>)
    decreases |s|
    ensures |ls| >= 1
  {
    match FindNewline(s, 0)
    case None => [s]
    case Some(k) => [s[..k]] + SplitLines(s[k + 1..])
  }

  /** A bullet line without its mark. */
  function Unbullet(line: string): (r: Option<string>)
    ensures r.Some? <==> |line| >= |BulletMark| && line[..|BulletMark|] == BulletMark
    ensures r.Some? ==> Bullet(r.value) == line
  {
    if |line| >= |BulletMark| && line[..|BulletMark|] == BulletMark then
      assert BulletMark + line[|BulletMark|..] == line;
      Some(line[|BulletMark|..])
    else None
  }

  function UnbulletAll(ls: seq<string>): (r: Option<seq<string>>)
    decreases |ls|
    ensures r.Some? ==> |r.value| == |ls|
  {
    if ls == [] then Some([])
    else match (Unbullet(ls[0]), UnbulletAll(ls[1..]))
      case (Some(t), Some(ts)) => Some([t] + ts)
      case _ => None
  }

  /** The memory texts a block was rendered from: none for the sentinel, otherwise the bullet
      lines without their marks; None when the block has neither form. */
  function ParseMemories(block: string): Option<seq<string>>
  {
    if block == NoMemories then Some([]) else UnbulletAll(SplitLines(block))
  }

  /** The first blank line (two newlines in a row) of s at or after i, if any. */
  function FindBlankLine(s: string, i: nat): (r: Option<nat>)
    requires i <= |s|
    decreases |s| - i
    ensures r.Some? ==> i <= r.value && r.value + 2 <= |s| && s[r.value] == '\n' && s[r.value + 1] == '\n'
  {
    if i + 2 > |s| then None
    else if s[i] == '\n' && s[i + 1] == '\n' then Some(i)
    else FindBlankLine(s, i + 1)
  }

  datatype Sections = Sections(block: string, query: string)

  /** The block and the query of a prompt: the block runs from the memory header to the first
      blank line, and the query follows the query header after it. */
  function ParsePrompt(p: string): Option<Sections>
  {
    if |p| < |MemoryHeader| || p[..|MemoryHeader|] != MemoryHeader then None
    else match FindBlankLine(p, |MemoryHeader|)
      case None => None
      case Some(k) =>
        var rest := p[k + 2..];
        if |rest| < |QueryHeader| || rest[..|QueryHeader|] != QueryHeader then None
        else Some(Sections(p[|MemoryHeader|..k], rest[|QueryHeader|..]))
  }

  // ----- Shapes of text -----

  predicate NoNewlineIn(t: string)
  {
    forall k :: 0 <= k < |t| ==> t[k] != '\n'
  }

  predicate AllWithoutNewline(texts: seq<string>)
  {
    forall i :: 0 <= i < |texts| ==> NoNewlineIn(texts[i])
  }

  /** No two newlines in a row. */
  predicate NoBlankLineIn(b: string)
  {
    forall k :: 0 <= k < |b| - 1 ==> !(b[k] == '\n' && b[k + 1] == '\n')
  }

  /** A block the prompt can carry so that the prompt parses back: no blank line inside and no
      newline at its end. */
  predicate SafeBlock(b: string)
  {
    NoBlankLineIn(b) && (b == [] || b[|b| - 1] != '\n')
  }

  // ----- The memory block -----

  /** A join of lines starts with its first line. */
  lemma {:induction false} JoinStartsWithFirst(ls: seq<string>)
    requires ls != []
    ensures |ls[0]| <= |JoinLines(ls)| && JoinLines(ls)[..|ls[0]|] == ls[0]
  {
    if |ls| > 1 {
      var j := JoinLines(ls);
      assert j == ls[0] + ("\n" + JoinLines(ls[1..]));
    }
  }

  /** A block with memories starts with a bullet mark. */
  lemma {:induction false} RenderStartsWithBullet(texts: seq<string>)
    requires texts != []
    ensures |RenderMemories(texts)| >= |BulletMark|
    ensures RenderMemories(texts)[..|BulletMark|] == BulletMark
  {
    var ls := Bullets(texts);
    JoinStartsWithFirst(ls);
    var r := RenderMemories(texts);
    assert r[..|ls[0]|][..|BulletMark|] == r[..|BulletMark|];
    assert ls[0][..|BulletMark|] == BulletMark;
  }

  /** The sentinel is rendered exactly when there are no memories: a block of memories starts
      with "- " and the sentinel does not. */
  lemma {:induction false} SentinelIffEmpty(texts: seq<string>)
    ensures RenderMemories(texts) == NoMemories <==> texts == []
  {
    if texts != [] {
      RenderStartsWithBullet(texts);
      assert NoMemories[0] != BulletMark[0];
    }
  }

  /** The join's first newline ends its first line. */
  lemma {:induction false} JoinSplitsAtFirst(l: string, rest: string)
    requires NoNewlineIn(l)
    ensures FindNewline(l + "\n" + rest, 0) == Some(|l|)
    ensures (l + "\n" + rest)[..|l|] == l && (l + "\n" + rest)[|l| + 1..] == rest
  {
    var s := l + "\n" + rest;
    assert forall k :: 0 <= k < |l| ==> s[k] == l[k];
    FindNewlineAt(s, 0, |l|);
    assert s[|l| + 1..] == rest by {
      assert forall k :: 0 <= k < |rest| ==> s[|l| + 1..][k] == rest[k];
    }
  }

  /** FindNewline stops at the first newline. */
  lemma {:induction false} FindNewlineAt(s: string, i: nat, e: nat)
    requires i <= e < |s| && s[e] == '\n'
    requires forall k :: i <= k < e ==> s[k] != '\n'
    ensures FindNewline(s, i) == Some(e)
    decreases e - i
  {
    if i < e {
      FindNewlineAt(s, i + 1, e);
    }
  }

  /** Splitting the join of newline-free lines gives the lines back. */
  lemma {:induction false} SplitJoin(ls: seq<string>)
    requires ls != [] && AllWithoutNewline(ls)
    ensures SplitLines(JoinLines(ls)) == ls
    decreases |ls|
  {
    if |ls| == 1 {
      assert FindNewline(ls[0], 0) == None;
    } else {
      var rest := JoinLines(ls[1..]);
      JoinSplitsAtFirst(ls[0], rest);
      SplitJoin(ls[1..]);
      assert SplitLines(JoinLines(ls)) == [ls[0]] + SplitLines(rest);
    }
  }

  lemma {:induction false} BulletsWithoutNewline(texts: seq<string>)
    requires AllWithoutNewline(texts)
    ensures AllWithoutNewline(Bullets(texts))
  {
    forall i | 0 <= i < |texts| ensures NoNewlineIn(Bullets(texts)[i]) {
      var b := Bullets(texts)[i];
      assert forall k :: 0 <= k < |b| ==> b[k] == if k < 2 then BulletMark[k] else texts[i][k - 2];
    }
  }

  /** Removing the marks from the bullets gives the texts back. */
  lemma {:induction false} UnbulletBullets(texts: seq<string>)
    ensures UnbulletAll(Bullets(texts)) == Some(texts)
    decreases |texts|
  {
    if texts != [] {
      var line := Bullet(texts[0]);
      assert line[..|BulletMark|] == BulletMark;
      assert line[|BulletMark|..] == texts[0];
      assert Bullets(texts)[1..] == Bullets(texts[1..]);
      UnbulletBullets(texts[1..]);
      assert [texts[0]] + texts[1..] == texts;
    }
  }

  /** The block parses back into the memory texts it was rendered from, in their order, as long
      as no text holds a newline (one that did would make extra lines). */
  lemma {:induction false} RenderRoundTrip(texts: seq<string>)
    requires AllWithoutNewline(texts)
    ensures ParseMemories(RenderMemories(texts)) == Some(texts)
  {
    SentinelIffEmpty(texts);
    if texts != [] {
      BulletsWithoutNewline(texts);
      SplitJoin(Bullets(texts));
      UnbulletBullets(texts);
    }
  }

  /** The lines of a block: one per memory, each "- " and the text, in the given order. */
  lemma {:induction false} RenderLines(texts: seq<string>)
    requires texts != [] && AllWithoutNewline(texts)
    ensures var ls := SplitLines(RenderMemories(texts));
      |ls| == |texts| && forall i :: 0 <= i < |texts| ==> ls[i] == BulletMark + texts[i]
  {
    BulletsWithoutNewline(texts);
    SplitJoin(Bullets(texts));
  }

  // ----- The prompt -----

  /** A join of nonempty newline-free lines has no blank line and does not end with a newline. */
  lemma {:induction false} JoinIsSafe(ls: seq<string>)
    requires ls != [] && AllWithoutNewline(ls)
    requires forall i :: 0 <= i < |ls| ==> ls[i] != []
    ensures SafeBlock(JoinLines(ls)) && JoinLines(ls) != []
    ensures JoinLines(ls)[0] == ls[0][0]
    decreases |ls|
  {
    if |ls| > 1 {
      var l := ls[0];
      var r := JoinLines(ls[1..]);
      JoinIsSafe(ls[1..]);
      var s := l + "\n" + r;
      assert forall k :: 0 <= k < |l| ==> s[k] == l[k];
      assert forall k :: |l| < k < |s| ==> s[k] == r[k - |l| - 1];
      assert s[|s| - 1] == r[|r| - 1];
    }
  }

  lemma {:induction false} SentinelIsSafe()
    ensures SafeBlock(NoMemories)
  {
    assert NoNewlineIn(NoMemories);
  }

  /** Every block retrieve_memories renders from newline-free texts is safe for the prompt. */
  lemma {:induction false} RenderIsSafe(texts: seq<string>)
    requires AllWithoutNewline(texts)
    ensures SafeBlock(RenderMemories(texts))
  {
    if texts == [] {
      SentinelIsSafe();
    } else {
      BulletsWithoutNewline(texts);
      var ls := Bullets(texts);
      assert forall i :: 0 <= i < |ls| ==> |ls[i]| >= 2;
      JoinIsSafe(ls);
    }
  }

  /** FindBlankLine stops at the first blank line. */
  lemma {:induction false} FindBlankLineAt(s: string, i: nat, e: nat)
    requires i <= e && e + 2 <= |s| && s[e] == '\n' && s[e + 1] == '\n'
    requires forall k :: i <= k < e ==> !(s[k] == '\n' && s[k + 1] == '\n')
    ensures FindBlankLine(s, i) == Some(e)
    decreases e - i
  {
    if i < e {
      FindBlankLineAt(s, i + 1, e);
    }
  }

  /** The pieces of a prompt. */
  lemma {:induction false} PromptPieces(block: string, query: string, h: nat, e: nat)
    requires h == |MemoryHeader| && e == h + |block|
    ensures var p := ContextPrompt(block, query);
      && |p| == e + |BlankLine| + |QueryHeader| + |query|
      && p[..h] == MemoryHeader
      && p[h..e] == block
      && p[e] == '\n' && p[e + 1] == '\n'
      && p[e + 2..] == QueryHeader + query
      && (forall k :: h <= k < e ==> p[k] == block[k - h])
  {
    var p := ContextPrompt(block, query);
    var t := QueryHeader + query;
    assert p == MemoryHeader + block + BlankLine + t;
    assert forall k :: 0 <= k < h ==> p[k] == MemoryHeader[k];
    assert forall k :: h <= k < e ==> p[k] == block[k - h];
    assert forall k :: e + 2 <= k < |p| ==> p[k] == t[k - e - 2];
    assert p[..h] == MemoryHeader;
    assert p[h..e] == block;
    assert p[e + 2..] == t;
  }

  /** No blank line of the prompt starts inside a safe block. */
  lemma {:induction false} NoBlankLineBefore(block: string, query: string, h: nat, e: nat)
    requires SafeBlock(block) && h == |MemoryHeader| && e == h + |block|
    ensures var p := ContextPrompt(block, query);
      forall k :: h <= k < e ==> !(p[k] == '\n' && p[k + 1] == '\n')
  {
    var p := ContextPrompt(block, query);
    PromptPieces(block, query, h, e);
    forall k | h <= k < e ensures !(p[k] == '\n' && p[k + 1] == '\n') {
      if k + 1 < e {
        assert p[k + 1] == block[k + 1 - h];
      } else {
        assert p[k] == block[|block| - 1];
      }
    }
  }

  /** The prompt parses back into the block and the query it was made of, provided the block
      has no blank line and no trailing newline (every rendered block qualifies); the query is
      arbitrary and comes back verbatim. */
  lemma {:induction false} PromptRoundTrip(block: string, query: string)
    requires SafeBlock(block)
    ensures ParsePrompt(ContextPrompt(block, query)) == Some(Sections(block, query))
  {
    var p := ContextPrompt(block, query);
    var h := |MemoryHeader|;
    var e := h + |block|;
    PromptPieces(block, query, h, e);
    NoBlankLineBefore(block, query, h, e);
    FindBlankLineAt(p, h, e);
    var t := QueryHeader + query;
    assert t[..|QueryHeader|] == QueryHeader;
    assert t[|QueryHeader|..] == query;
  }

  /** The prompt starts with the memory header and ends with the raw query. */
  lemma {:induction false} PromptEndsWithQuery(block: string, query: string)
    ensures var p := ContextPrompt(block, query);
      && |MemoryHeader| + |query| <= |p|
      && p[..|MemoryHeader|] == MemoryHeader
      && p[|p| - |query|..] == query
  {
    var p := ContextPrompt(block, query);
    PromptPieces(block, query, |MemoryHeader|, |MemoryHeader| + |block|);
    assert p == (MemoryHeader + block + BlankLine + QueryHeader) + query;
    assert forall k :: 0 <= k < |query| ==> p[|p| - |query|..][k] == query[k];
  }

  /** What the model receives carries the retrieved memories and the query intact: parsing the
      prompt and then its block gives back both. */
  lemma {:induction false} PromptCarriesMemories(texts: seq<string>, query: string)
    requires AllWithoutNewline(texts)
    ensures var r := ParsePrompt(ContextPrompt(RenderMemories(texts), query));
      r.Some? && r.value.query == query && ParseMemories(r.value.block) == Some(texts)
  {
    RenderIsSafe(texts);
    PromptRoundTrip(RenderMemories(texts), query);
    RenderRoundTrip(texts);
  }
}
