/** The assistant's control logic (vector_memory.py): classifying each input, saving the facts
    of each reply, seeding a new index, and the chat loop of `main`. Pinecone is the Client of
    module Pinecone; the model's replies and the matches of each memory query are inputs. The id
    of a fact, `str(hash(fact))` in the source, is the parameter idOf: fixed for a run, otherwise
    arbitrary. */
module Vibe {
  import opened Text
  import opened Extract
  import opened Compose
  import opened Pinecone

  const IndexName: string := "vibe-memory"

  /** vector_memory.py lines 36-43. */
  const InitialFacts: seq<string> := [
    "The user's name is Alex.",
    "Alex is a software developer.",
    "Alex is interested in learning about artificial intelligence.",
    "Alex enjoys hiking on the weekends.",
    "Alex lives in a city with a vibrant tech scene.",
    "Alex's favorite programming language is Python."
  ]

  // ----- Input classification (lines 84-89) -----

  datatype Command = Exit | Skip | Query

  /** A whitespace character is no letter, so lowering keeps it. */
  lemma {:induction false} SpaceLowersToItself(c: char)
    ensures IsSpace(c) ==> LowerChar(c) == c
  {
  }

  /** What the loop does with an input: the exit test comes first and looks at the lowered
      input as typed (" exit" is no exit); whitespace-only input is skipped; anything else is a
      query. */
  function Classify(input: string): (c: Command)
    ensures c == Skip <==> AllSpace(input)
    ensures c == Exit ==> |input| == 4 && !AllSpace(input)
    ensures c == Query ==> Strip(input) != []
  {
    if Lower(input) == "exit" || Lower(input) == "quit" then
      assert !AllSpace(input) by {
        SpaceLowersToItself(input[0]);
        assert Lower(input)[0] == LowerChar(input[0]);
      }
      Exit
    else if Strip(input) == [] then Skip
    else Query
  }

  /** Inputs as the source treats them. */
  lemma {:induction false} ClassifyExamples()
    ensures Classify("exit") == Exit && Classify("QUIT") == Exit && Classify("Exit") == Exit
    ensures Classify(" exit") == Query
    ensures Classify("") == Skip && Classify("  \t") == Skip
  {
    assert Lower("QUIT") == "quit";
    assert Lower("Exit") == "exit";
    assert Lower(" exit") != "exit" && Lower(" exit") != "quit";
    assert !AllSpace(" exit") by {
      assert !IsSpace(" exit"[1]);
    }
    assert AllSpace("  \t");
  }

  // ----- Saving facts (lines 107-110, 126-129, 140-147) -----

  /** `upsert_memory`: one record, under the fact's id, in the assistant's index. */
  method UpsertMemory(pc: Client, idOf: string -> string, fact: string)
    requires IndexName in pc.indexes
    modifies pc
    ensures pc.indexes == old(pc.indexes)[IndexName := UpsertAll(old(pc.indexes)[IndexName], idOf, [fact])]
  {
    ghost var r := pc.indexes[IndexName];
    pc.Upsert(IndexName, idOf(fact), fact);
    assert UpsertAll(r, idOf, [fact]) == UpsertAll(r[idOf(fact) := fact], idOf, []);
  }

  /** `for fact in facts: upsert_memory(fact, index)`: the facts upserted in their order. */
  method SaveFacts(pc: Client, idOf: string -> string, facts: seq<string>)
    requires IndexName in pc.indexes
    modifies pc
    ensures pc.indexes == old(pc.indexes)[IndexName := UpsertAll(old(pc.indexes)[IndexName], idOf, facts)]
  {
    ghost var r := pc.indexes[IndexName];
    for i := 0 to |facts|
      invariant IndexName in pc.indexes
      invariant pc.indexes == old(pc.indexes)[IndexName := UpsertAll(r, idOf, facts[..i])]
    {
      UpsertMemory(pc, idOf, facts[i]);
      UpsertAllSnoc(r, idOf, facts[..i], facts[i]);
      assert UpsertAll(UpsertAll(r, idOf, facts[..i]), idOf, [facts[i]])
        == UpsertAll(r, idOf, facts[..i])[idOf(facts[i]) := facts[i]];
      assert facts[..i + 1] == facts[..i] + [facts[i]];
    }
    assert facts[..|facts|] == facts;
  }

  /** `seed_initial_data`: the six initial facts upserted in order. */
  method SeedInitialData(pc: Client, idOf: string -> string)
    requires IndexName in pc.indexes
    modifies pc
    ensures pc.indexes == old(pc.indexes)[IndexName := UpsertAll(old(pc.indexes)[IndexName], idOf, InitialFacts)]
  {
    SaveFacts(pc, idOf, InitialFacts);
  }

  // ----- Index setup (lines 59-73) -----

  /** The indexes after setup: an absent index is created and seeded, an existing one is left
      as it is. */
  function Bootstrap(indexes: map<string, Records>, idOf: string -> string): map<string, Records>
  {
    if IndexName in indexes then indexes
    else indexes[IndexName := UpsertAll(map[], idOf, InitialFacts)]
  }

  method SetupIndex(pc: Client, idOf: string -> string) returns (seeded: bool)
    modifies pc
    ensures seeded <==> IndexName !in old(pc.indexes)
    ensures pc.indexes == Bootstrap(old(pc.indexes), idOf)
  {
    if IndexName !in pc.Names() {
      pc.CreateIndex(IndexName);
      SeedInitialData(pc, idOf);
      seeded := true;
    } else {
      seeded := false;
    }
  }

  /** After setup the index exists; other indexes are never touched; and a second setup (the
      next run of the program) changes nothing, so the initial facts are seeded once. */
  lemma {:induction false} BootstrapLaws(indexes: map<string, Records>, idOf: string -> string)
    ensures IndexName in Bootstrap(indexes, idOf)
    ensures forall n :: n != IndexName ==> (n in Bootstrap(indexes, idOf) <==> n in indexes)
    ensures forall n :: n != IndexName && n in indexes ==> Bootstrap(indexes, idOf)[n] == indexes[n]
    ensures IndexName in indexes ==> Bootstrap(indexes, idOf) == indexes
    ensures Bootstrap(Bootstrap(indexes, idOf), idOf) == Bootstrap(indexes, idOf)
  {
  }

  /** A new index holds exactly the initial facts, each under its id; with distinct ids, each
      record is that fact. */
  lemma {:induction false} SeededIndex(indexes: map<string, Records>, idOf: string -> string)
    requires IndexName !in indexes
    ensures var r := Bootstrap(indexes, idOf)[IndexName];
      && r.Keys == Ids(idOf, InitialFacts)
      && Keyed(r, idOf)
      && (Injective(idOf) ==> forall f :: f in InitialFacts ==> r[idOf(f)] == f)
  {
    UpsertAllFrame(map[], idOf, InitialFacts);
    UpsertAllStores(map[], idOf, InitialFacts);
  }

  // ----- The chat loop (lines 82-110) -----

  /** What a run has done so far: the records of the index, the prompts sent, the replies shown,
      the facts saved, and whether the user has left. */
  datatype Session = Session(records: Records, prompts: seq<string>, shown: seq<string>,
                             saved: seq<string>, exited: bool)

  function Start(records: Records): Session
  {
    Session(records, [], [], [], false)
  }

  /** One pass of the loop body on an input, the memories retrieved for it and the model's
      reply to its prompt. */
  function TurnStep(s: Session, idOf: string -> string, input: string, matches: seq<string>, reply: string): Session
  {
    if s.exited then s
    else match Classify(input)
      case Exit => s.(exited := true)
      case Skip => s
      case Query =>
        var facts := NewFacts(reply);
        Session(UpsertAll(s.records, idOf, facts),
                s.prompts + [ContextPrompt(RenderMemories(matches), input)],
                s.shown + [Cleaned(reply)],
                s.saved + facts,
                false)
  }

  /** The session after the first n inputs. */
  function Chat(start: Session, idOf: string -> string, inputs: seq<string>, matches: seq<seq<string>>,
                replies: seq<string>, n: nat): Session
    requires n <= |inputs| && |matches| == |inputs| && |replies| == |inputs|
    decreases n, 0
  {
    if n == 0 then start else After(start, idOf, inputs, matches, replies, n - 1)
  }

  /** The session once input k has been handled. */
  function After(start: Session, idOf: string -> string, inputs: seq<string>, matches: seq<seq<string>>,
                 replies: seq<string>, k: nat): Session
    requires k < |inputs| && |matches| == |inputs| && |replies| == |inputs|
    decreases k, 2
  {
    Pass(start, idOf, inputs, matches, replies, k)
  }

  /** The pass of the loop on input k, from the session the first k inputs left. */
  function Pass(start: Session, idOf: string -> string, inputs: seq<string>, matches: seq<seq<string>>,
                replies: seq<string>, k: nat): Session
    requires k < |inputs| && |matches| == |inputs| && |replies| == |inputs|
    decreases k, 1
  {
    TurnStep(Chat(start, idOf, inputs, matches, replies, k), idOf, inputs[k], matches[k], replies[k])
  }

  /** The `while True` loop. The user's inputs, the memories retrieved for each and the replies
      to each prompt are given by position; entries for skipped inputs and those after the exit
      are not used. Running out of input ends the model of the loop. The session returned is what
      the loop did: the prompts it sent, the replies it showed, the facts it saved and whether the
      user left; the index holds its records and no other index changes. */
  method ChatLoop(pc: Client, idOf: string -> string, inputs: seq<string>, matches: seq<seq<string>>,
                  replies: seq<string>)
    returns (s: Session)
    requires IndexName in pc.indexes && |matches| == |inputs| && |replies| == |inputs|
    modifies pc
    ensures s == Chat(Start(old(pc.indexes)[IndexName]), idOf, inputs, matches, replies, |inputs|)
    ensures pc.indexes == old(pc.indexes)[IndexName := s.records]
  {
    s := Start(pc.indexes[IndexName]);
    ghost var start := s;
    var i := 0;
    while i < |inputs| && !s.exited
      invariant 0 <= i <= |inputs| && IndexName in pc.indexes
      invariant s == Chat(start, idOf, inputs, matches, replies, i)
      invariant pc.indexes == old(pc.indexes)[IndexName := s.records]
    {
      s := Turn(pc, idOf, inputs, matches, replies, i, start, s);
      i := i + 1;
    }
    ChatEnd(start, idOf, inputs, matches, replies, i);
  }

  /** One pass of the loop body on input i, from the session the first i inputs left: an exit
      ends the loop, blank input is skipped, and a query is answered. */
  method Turn(pc: Client, idOf: string -> string, inputs: seq<string>, matches: seq<seq<string>>,
              replies: seq<string>, i: nat, ghost start: Session, s: Session)
    returns (s': Session)
    requires i < |inputs| && |matches| == |inputs| && |replies| == |inputs| && IndexName in pc.indexes
    requires s == Chat(start, idOf, inputs, matches, replies, i) && !s.exited
    requires pc.indexes[IndexName] == s.records
    modifies pc
    ensures s' == Chat(start, idOf, inputs, matches, replies, i + 1)
    ensures pc.indexes == old(pc.indexes)[IndexName := s'.records]
  {
    ChatNext(start, idOf, inputs, matches, replies, i);
    var command := Classify(inputs[i]);
    if command == Exit {
      TurnStepExit(s, idOf, inputs[i], matches[i], replies[i]);
      s' := s.(exited := true);
    } else if command == Skip {
      TurnStepSkip(s, idOf, inputs[i], matches[i], replies[i]);
      s' := s;
    } else {
      TurnStepQuery(s, idOf, inputs[i], matches[i], replies[i]);
      var prompt, answer, facts := Respond(pc, idOf, inputs[i], matches[i], replies[i]);
      s' := Session(pc.indexes[IndexName], s.prompts + [prompt], s.shown + [answer], s.saved + facts, false);
    }
  }

  /** Steps 1 to 5 of the loop body for a query: the prompt from the retrieved memories and
      the input, the reply shown without its markers, and the reply's facts saved in order. */
  method Respond(pc: Client, idOf: string -> string, input: string, matches: seq<string>, reply: string)
    returns (prompt: string, answer: string, facts: seq<string>)
    requires IndexName in pc.indexes
    modifies pc
    ensures prompt == ContextPrompt(RenderMemories(matches), input)
    ensures answer == Cleaned(reply) && facts == NewFacts(reply)
    ensures pc.indexes == old(pc.indexes)[IndexName := UpsertAll(old(pc.indexes)[IndexName], idOf, facts)]
  {
    var memories := RenderMemories(matches);
    prompt := ContextPrompt(memories, input);
    answer := Cleaned(reply);
    facts := NewFacts(reply);
    SaveFacts(pc, idOf, facts);
  }

  /** `main` after the client is made: set the index up, then chat. */
  method Assistant(pc: Client, idOf: string -> string, inputs: seq<string>, matches: seq<seq<string>>,
                   replies: seq<string>)
    returns (seeded: bool, s: Session)
    requires |matches| == |inputs| && |replies| == |inputs|
    modifies pc
    ensures seeded <==> IndexName !in old(pc.indexes)
    ensures var b := Bootstrap(old(pc.indexes), idOf);
      && s == Chat(Start(b[IndexName]), idOf, inputs, matches, replies, |inputs|)
      && pc.indexes == b[IndexName := s.records]
  {
    seeded := SetupIndex(pc, idOf);
    BootstrapLaws(old(pc.indexes), idOf);
    s := ChatLoop(pc, idOf, inputs, matches, replies);
  }

  // ----- Laws of a session -----

  /** Running out of input, or leaving at input n, gives the session of all the inputs. */
  lemma {:induction false} ChatEnd(start: Session, idOf: string -> string, inputs: seq<string>,
                                   matches: seq<seq<string>>, replies: seq<string>, n: nat)
    requires n <= |inputs| && |matches| == |inputs| && |replies| == |inputs|
    requires n < |inputs| ==> Chat(start, idOf, inputs, matches, replies, n).exited
    ensures Chat(start, idOf, inputs, matches, replies, |inputs|) == Chat(start, idOf, inputs, matches, replies, n)
  {
    if n < |inputs| {
      ChatStaysExited(start, idOf, inputs, matches, replies, n, |inputs|);
    }
  }

  /** Once the user has left, later inputs change nothing. */
  lemma {:induction false} ChatStaysExited(start: Session, idOf: string -> string, inputs: seq<string>,
                                           matches: seq<seq<string>>, replies: seq<string>, n: nat, m: nat)
    requires n <= m <= |inputs| && |matches| == |inputs| && |replies| == |inputs|
    requires Chat(start, idOf, inputs, matches, replies, n).exited
    ensures Chat(start, idOf, inputs, matches, replies, m) == Chat(start, idOf, inputs, matches, replies, n)
    decreases m - n
  {
    if n < m {
      ChatStaysExited(start, idOf, inputs, matches, replies, n, m - 1);
      ChatNext(start, idOf, inputs, matches, replies, m - 1);
      TurnStepAfterExit(Chat(start, idOf, inputs, matches, replies, m - 1), idOf, inputs[m - 1], matches[m - 1], replies[m - 1]);
    }
  }

  /** Each input is one pass from the session before it. */
  lemma {:induction false} ChatNext(start: Session, idOf: string -> string, inputs: seq<string>,
                                    matches: seq<seq<string>>, replies: seq<string>, n: nat)
    requires n < |inputs| && |matches| == |inputs| && |replies| == |inputs|
    ensures Chat(start, idOf, inputs, matches, replies, n + 1)
      == TurnStep(Chat(start, idOf, inputs, matches, replies, n), idOf, inputs[n], matches[n], replies[n])
  {
    assert Chat(start, idOf, inputs, matches, replies, n + 1) == After(start, idOf, inputs, matches, replies, n);
  }

  /** After the exit no pass changes anything. */
  lemma {:induction false} TurnStepAfterExit(s: Session, idOf: string -> string, input: string, matches: seq<string>, reply: string)
    requires s.exited
    ensures TurnStep(s, idOf, input, matches, reply) == s
  {
  }

  /** An exit input ends the session and changes nothing else. */
  lemma {:induction false} TurnStepExit(s: Session, idOf: string -> string, input: string, matches: seq<string>, reply: string)
    requires !s.exited && Classify(input) == Exit
    ensures TurnStep(s, idOf, input, matches, reply) == s.(exited := true)
  {
  }

  /** Whitespace-only input changes nothing: no prompt, no reply shown, the store untouched. */
  lemma {:induction false} TurnStepSkip(s: Session, idOf: string -> string, input: string, matches: seq<string>, reply: string)
    requires Classify(input) == Skip
    ensures TurnStep(s, idOf, input, matches, reply) == s
  {
  }

  /** A query sends one prompt, shows one cleaned reply and saves the reply's facts in order. */
  lemma {:induction false} TurnStepQuery(s: Session, idOf: string -> string, input: string, matches: seq<string>, reply: string)
    requires !s.exited && Classify(input) == Query
    ensures TurnStep(s, idOf, input, matches, reply)
      == Session(UpsertAll(s.records, idOf, NewFacts(reply)),
                 s.prompts + [ContextPrompt(RenderMemories(matches), input)],
                 s.shown + [Cleaned(reply)],
                 s.saved + NewFacts(reply),
                 false)
  {
  }

  /** What one pass does, by case, from a session that has not ended. */
  lemma {:induction false} PassCases(s: Session, idOf: string -> string, input: string, matches: seq<string>, reply: string)
    ensures var t := TurnStep(s, idOf, input, matches, reply);
      && (s.exited || Classify(input) != Query ==> t.records == s.records && t.prompts == s.prompts && t.shown == s.shown && t.saved == s.saved)
      && (!s.exited && Classify(input) == Query ==>
            t.records == UpsertAll(s.records, idOf, NewFacts(reply))
            && t.prompts == s.prompts + [ContextPrompt(RenderMemories(matches), input)]
            && t.shown == s.shown + [Cleaned(reply)]
            && t.saved == s.saved + NewFacts(reply))
  {
    if s.exited {
      TurnStepAfterExit(s, idOf, input, matches, reply);
    } else if Classify(input) == Exit {
      TurnStepExit(s, idOf, input, matches, reply);
    } else if Classify(input) == Skip {
      TurnStepSkip(s, idOf, input, matches, reply);
    } else {
      TurnStepQuery(s, idOf, input, matches, reply);
    }
  }

  /** What input k does to the session, by case: a query answered from a session that has not
      ended adds one prompt, one reply shown and the reply's facts; anything else adds nothing. */
  lemma {:induction false} ChatStep(start: Session, idOf: string -> string, inputs: seq<string>,
                                    matches: seq<seq<string>>, replies: seq<string>, k: nat)
    requires k < |inputs| && |matches| == |inputs| && |replies| == |inputs|
    ensures var s := Chat(start, idOf, inputs, matches, replies, k);
      var t := Chat(start, idOf, inputs, matches, replies, k + 1);
      && (s.exited || Classify(inputs[k]) != Query ==> t.records == s.records && t.prompts == s.prompts && t.shown == s.shown && t.saved == s.saved)
      && (!s.exited && Classify(inputs[k]) == Query ==>
            t.records == UpsertAll(s.records, idOf, NewFacts(replies[k]))
            && t.prompts == s.prompts + [ContextPrompt(RenderMemories(matches[k]), inputs[k])]
            && t.shown == s.shown + [Cleaned(replies[k])]
            && t.saved == s.saved + NewFacts(replies[k]))
  {
    ChatNext(start, idOf, inputs, matches, replies, k);
    PassCases(Chat(start, idOf, inputs, matches, replies, k), idOf, inputs[k], matches[k], replies[k]);
  }

  /** The store of a session holds the records it started from with its saved facts upserted
      in the order saved. */
  ghost predicate Stored(s: Session, r: Records, idOf: string -> string)
  {
    s.records == UpsertAll(r, idOf, s.saved)
  }

  /** A pass keeps the store in step with the facts saved. */
  lemma {:induction false} TurnStepStores(s: Session, r: Records, idOf: string -> string, input: string,
                                          matches: seq<string>, reply: string)
    requires Stored(s, r, idOf)
    ensures Stored(TurnStep(s, idOf, input, matches, reply), r, idOf)
  {
    PassCases(s, idOf, input, matches, reply);
    if !s.exited && Classify(input) == Query {
      UpsertAllAppend(r, idOf, s.saved, NewFacts(reply));
    }
  }

  /** Input k keeps the store in step with the facts saved. */
  lemma {:induction false} ChatStores(r: Records, idOf: string -> string, inputs: seq<string>,
                                      matches: seq<seq<string>>, replies: seq<string>, k: nat)
    requires k < |inputs| && |matches| == |inputs| && |replies| == |inputs|
    requires Stored(Chat(Start(r), idOf, inputs, matches, replies, k), r, idOf)
    ensures Stored(Chat(Start(r), idOf, inputs, matches, replies, k + 1), r, idOf)
  {
    ChatNext(Start(r), idOf, inputs, matches, replies, k);
    TurnStepStores(Chat(Start(r), idOf, inputs, matches, replies, k), r, idOf, inputs[k], matches[k], replies[k]);
  }

  /** The index after n inputs holds the records it started with and every fact saved so far
      upserted in the order saved. */
  lemma {:induction false} ChatRecords(r: Records, idOf: string -> string, inputs: seq<string>,
                                       matches: seq<seq<string>>, replies: seq<string>, n: nat)
    requires n <= |inputs| && |matches| == |inputs| && |replies| == |inputs|
    ensures var s := Chat(Start(r), idOf, inputs, matches, replies, n);
      s.records == UpsertAll(r, idOf, s.saved)
  {
    if n > 0 {
      ChatRecords(r, idOf, inputs, matches, replies, n - 1);
      ChatStores(r, idOf, inputs, matches, replies, n - 1);
    }
  }

  /** One prompt for each reply shown, and only facts the marker pattern can match saved. */
  ghost predicate Transcribed(s: Session)
  {
    |s.prompts| == |s.shown| && forall f :: f in s.saved ==> CleanFact(f)
  }

  /** A pass keeps the transcript in order. */
  lemma {:induction false} TurnStepTranscribes(s: Session, idOf: string -> string, input: string,
                                               matches: seq<string>, reply: string)
    requires Transcribed(s)
    ensures Transcribed(TurnStep(s, idOf, input, matches, reply))
  {
    PassCases(s, idOf, input, matches, reply);
    if !s.exited && Classify(input) == Query {
      NewFactsAreClean(reply);
      var t := TurnStep(s, idOf, input, matches, reply);
      assert forall f :: f in t.saved ==> f in s.saved || f in NewFacts(reply);
    }
  }

  /** Input k keeps the transcript in order. */
  lemma {:induction false} ChatTranscribes(start: Session, idOf: string -> string, inputs: seq<string>,
                                           matches: seq<seq<string>>, replies: seq<string>, k: nat)
    requires k < |inputs| && |matches| == |inputs| && |replies| == |inputs|
    requires Transcribed(Chat(start, idOf, inputs, matches, replies, k))
    ensures Transcribed(Chat(start, idOf, inputs, matches, replies, k + 1))
  {
    ChatNext(start, idOf, inputs, matches, replies, k);
    TurnStepTranscribes(Chat(start, idOf, inputs, matches, replies, k), idOf, inputs[k], matches[k], replies[k]);
  }

  /** One prompt is sent for each reply shown, and every saved fact is one the marker pattern
      can match. */
  lemma {:induction false} ChatTranscript(start: Session, idOf: string -> string, inputs: seq<string>,
                                          matches: seq<seq<string>>, replies: seq<string>, n: nat)
    requires n <= |inputs| && |matches| == |inputs| && |replies| == |inputs|
    requires |start.prompts| == |start.shown| && forall f :: f in start.saved ==> CleanFact(f)
    ensures var s := Chat(start, idOf, inputs, matches, replies, n);
      && |s.prompts| == |s.shown|
      && forall f :: f in s.saved ==> CleanFact(f)
  {
    if n > 0 {
      ChatTranscript(start, idOf, inputs, matches, replies, n - 1);
      ChatTranscribes(start, idOf, inputs, matches, replies, n - 1);
    }
  }
}
