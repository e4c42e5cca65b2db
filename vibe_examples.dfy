/** A short run of the chat loop worked through: the user gives a name, the reply saves a
    fact, and the user leaves. */
module VibeExamples {
  import opened Text
  import opened Extract
  import opened ExtractExamples
  import opened Compose
  import opened Pinecone
  import opened Vibe

  const Greeting: string := "Nice to meet you, Sam! " + Open + "User's name is Sam." + Close

  lemma {:induction false} IntroductionIsQuery()
    ensures Classify("I'm Sam.") == Query
  {
    assert |Lower("I'm Sam.")| == 8;
    assert !IsSpace("I'm Sam."[0]);
  }

  /** With no memories found, the first prompt carries the sentinel; the reply's fact is saved
      and stored under its id; the greeting is shown clean; "exit" ends the run and the input
      after it is never read. */
  lemma {:induction false} IntroduceAndLeave(r: Records, idOf: string -> string)
    ensures var f := "User's name is Sam.";
      var s := Chat(Start(r), idOf, ["I'm Sam.", "exit", "hello?"], [[], [], []], [Greeting, "", ""], 3);
      && s.prompts == [ContextPrompt(NoMemories, "I'm Sam.")]
      && s.shown == ["Nice to meet you, Sam!"]
      && s.saved == [f]
      && s.records == r[idOf(f) := f]
      && s.exited
  {
    var inputs := ["I'm Sam.", "exit", "hello?"];
    var matches: seq<seq<string>> := [[], [], []];
    var replies := [Greeting, "", ""];
    var f := "User's name is Sam.";
    IntroductionIsQuery();
    ClassifyExamples();
    GreetingSavesName();
    ChatStep(Start(r), idOf, inputs, matches, replies, 0);
    ChatNext(Start(r), idOf, inputs, matches, replies, 1);
    TurnStepExit(Chat(Start(r), idOf, inputs, matches, replies, 1), idOf, inputs[1], matches[1], replies[1]);
    ChatStaysExited(Start(r), idOf, inputs, matches, replies, 2, 3);
    assert UpsertAll(r, idOf, [f]) == r[idOf(f) := f] by {
      assert UpsertAll(r, idOf, [f]) == UpsertAll(r[idOf(f) := f], idOf, []);
    }
  }
}
