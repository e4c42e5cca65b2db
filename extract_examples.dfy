/** Replies worked through the two calls of vector_memory.py lines 102 and 106. */
module ExtractExamples {
  import opened Text
  import opened Extract
  import opened ExtractLaws

  /** The reply of the assistant's own instructions: the name is saved and the greeting shown
      without the marker and without the space before it. */
  lemma {:induction false} GreetingSavesName()
    ensures NewFacts("Nice to meet you, Sam! " + Open + "User's name is Sam." + Close)
      == ["User's name is Sam."]
    ensures Cleaned("Nice to meet you, Sam! " + Open + "User's name is Sam." + Close)
      == "Nice to meet you, Sam!"
  {
    var a := "Nice to meet you, Sam! ";
    var f := "User's name is Sam.";
    NoSlashIsClean(f);
    OneMarkedFact(a, f, "");
    assert a + Open + f + Close + "" == a + Open + f + Close;
    assert a + "" == a;
    var t := "Nice to meet you, Sam!";
    assert a == t + " ";
    StripTrailing(t, " ");
  }

  /** Two markers in one reply: both facts, in order; the spaces around each marker stay. */
  lemma {:induction false} TwoFactsInOrder()
    ensures NewFacts("A " + Open + "fact1" + Close + " B " + Open + "fact2" + Close + " C")
      == ["fact1", "fact2"]
    ensures RemoveMarkers("A " + Open + "fact1" + Close + " B " + Open + "fact2" + Close + " C")
      == "A  B  C"
  {
    NoSlashIsClean("fact1");
    NoSlashIsClean("fact2");
    TwoMarkedFacts("A ", "fact1", " B ", "fact2", " C");
  }

  /** An empty marker pair yields an empty fact. */
  lemma {:induction false} EmptyGroup()
    ensures NewFacts(Open + Close) == [""]
    ensures RemoveMarkers(Open + Close) == ""
  {
    NoSlashIsClean("");
    OneMarkedFact("", "", "");
    assert "" + Open + "" + Close + "" == Open + Close;
  }

  /** A second opener before the closer belongs to the fact: the search starts at the first. */
  lemma {:induction false} OpenerInsideFact()
    ensures NewFacts(Open + "a" + Open + "b" + Close) == ["a" + Open + "b"]
    ensures RemoveMarkers(Open + "a" + Open + "b" + Close) == ""
  {
    var f := "a" + Open + "b";
    NoSlashIsClean(f);
    OneMarkedFact("", f, "");
    assert "" + Open + f + Close + "" == Open + "a" + Open + "b" + Close;
  }

  /** An opener without a closer is left in the reply and nothing is saved. */
  lemma {:induction false} UnterminatedKept()
    ensures NewFacts(Open + "fact1 B") == []
    ensures RemoveMarkers(Open + "fact1 B") == Open + "fact1 B"
  {
    UnterminatedMarker("fact1 B");
  }
}
