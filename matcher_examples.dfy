/** Worked examples of `extract_keywords` and `find_best_match` on concrete
    prompts. Each concrete fact is its own small lemma: the tokenisation of a
    literal prompt, the set it yields, and the vocabulary words it keeps. */
module MatcherExamples {
  import opened Wrappers
  import opened Text
  import opened Detections
  import opened SemanticMatcher

  // ---- "Red CARS": whole tokens only ----

  lemma RedCarsWords()
    ensures IsWord("red") && IsWord("cars")
    ensures JoinSpaces(["red", "cars"]) == "red cars"
  {
  }

  lemma RedCarsLower()
    ensures Lower("Red CARS") == "red cars"
  {
  }

  lemma RedCarsSet()
    ensures (set w | w in ["red", "cars"]) == {"red", "cars"}
  {
  }

  lemma RedCarsTokens()
    ensures Tokens("Red CARS") == {"red", "cars"}
  {
    RedCarsWords();
    RedCarsLower();
    RedCarsSet();
    TokensOfWords("Red CARS", ["red", "cars"]);
  }

  /** "car" is not found inside the token "cars". */
  lemma NoSubwordMatch()
    ensures ExtractKeywords("Red CARS", ["car"]) == []
  {
    RedCarsTokens();
    assert KeepMembers(["car"], {"red", "cars"}) == [];
  }

  // ---- "the Car  door": letter case and a run of spaces ----

  lemma CarDoorWords()
    ensures forall k :: 0 <= k < 3 ==> IsWord(["the", "car", "door"][k])
    ensures JoinSpaces(["the", "car", "door"]) == "the car door"
  {
  }

  lemma CarDoorLower()
    ensures Lower("the Car door") == "the car door"
  {
  }

  lemma CarDoorSet()
    ensures (set w | w in ["the", "car", "door"]) == {"the", "car", "door"}
  {
  }

  lemma CarDoorTokens()
    ensures Tokens("the Car door") == {"the", "car", "door"}
  {
    CarDoorWords();
    CarDoorLower();
    CarDoorSet();
    TokensOfWords("the Car door", ["the", "car", "door"]);
  }

  lemma CarDoorSpaces()
    ensures "the Car" + [' '] + "door" == "the Car door"
    ensures "the Car" + [' ', ' '] + "door" == "the Car  door"
  {
  }

  lemma CarDoorKeep()
    ensures KeepMembers(["car", "bumper"], {"the", "car", "door"}) == ["car"]
  {
  }

  /** Neither the capital letter nor the double space hides the word "car". */
  lemma WholeWordMatch()
    ensures ExtractKeywords("the Car  door", ["car", "bumper"]) == ["car"]
  {
    CarDoorTokens();
    CarDoorKeep();
    assert ExtractKeywords("the Car door", ["car", "bumper"]) == ["car"];
    CarDoorSpaces();
    SpaceRunsIgnored("the Car", "door", ["car", "bumper"]);
  }

  // ---- "show me the headlight" ----

  lemma HeadlightWords()
    ensures forall k :: 0 <= k < 4 ==> IsWord(["show", "me", "the", "headlight"][k])
  {
  }

  lemma HeadlightLower()
    ensures Lower("show me the headlight") == "show me the headlight"
  {
    LowerOfLowerCase("show me the headlight");
  }

  lemma HeadlightJoin()
    ensures JoinSpaces(["show", "me", "the", "headlight"]) == "show me the headlight"
  {
  }

  lemma HeadlightSet()
    ensures (set w | w in ["show", "me", "the", "headlight"]) == {"show", "me", "the", "headlight"}
  {
  }

  lemma HeadlightTokens()
    ensures Tokens("show me the headlight") == {"show", "me", "the", "headlight"}
  {
    HeadlightWords();
    HeadlightLower();
    HeadlightJoin();
    HeadlightSet();
    TokensOfWords("show me the headlight", ["show", "me", "the", "headlight"]);
  }

  lemma HeadlightKeep()
    ensures KeepMembers(["headlight", "bumper", "mirror"], {"show", "me", "the", "headlight"}) == ["headlight"]
  {
  }

  /** Of three vocabulary words, the prompt names only "headlight". */
  lemma HeadlightKeywords()
    ensures ExtractKeywords("show me the headlight", ["headlight", "bumper", "mirror"]) == ["headlight"]
  {
    HeadlightTokens();
    HeadlightKeep();
  }

  /** "show me the headlight" against a headlight and a car: the headlight
      detection wins when a word is more similar to itself than to "car". */
  lemma HeadlightScenario(sim: Similarity, b1: Box, b2: Box, c1: real, c2: real)
    requires sim("headlight", "headlight") == 1.0
    requires sim("headlight", "car") < 1.0
    ensures var dets := [Detection(b1, "headlight", c1), Detection(b2, "car", c2)];
            FindBestMatch(ExtractKeywords("show me the headlight", ["headlight", "bumper", "mirror"]), dets, sim)
              == Some(dets[0])
  {
    HeadlightKeywords();
    var dets := [Detection(b1, "headlight", c1), Detection(b2, "car", c2)];
    var s := Scores(["headlight"], dets, sim);
    assert s[0] == 1.0;
    assert s[1] < 1.0;
    assert ArgMax(s) == 0;
  }

  // ---- "what is this": no vocabulary word, so the fallback terms ----

  lemma WhatIsThisWords()
    ensures forall k :: 0 <= k < 3 ==> IsWord(["what", "is", "this"][k])
    ensures JoinSpaces(["what", "is", "this"]) == "what is this"
  {
  }

  lemma WhatIsThisLower()
    ensures Lower("what is this") == "what is this"
  {
    LowerOfLowerCase("what is this");
  }

  lemma WhatIsThisSet()
    ensures (set w | w in ["what", "is", "this"]) == {"what", "is", "this"}
  {
  }

  lemma WhatIsThisTokens()
    ensures Tokens("what is this") == {"what", "is", "this"}
  {
    WhatIsThisWords();
    WhatIsThisLower();
    WhatIsThisSet();
    TokensOfWords("what is this", ["what", "is", "this"]);
  }

  lemma WhatIsThisKeywords()
    ensures ExtractKeywords("what is this", ["headlight"]) == []
  {
    WhatIsThisTokens();
    assert KeepMembers(["headlight"], {"what", "is", "this"}) == [];
  }

  /** A bicycle unlike both fallback terms is no match. */
  lemma BicycleScenario(sim: Similarity, b: Box, c: real)
    requires sim("car", "bicycle") + sim("vehicle", "bicycle") < 0.6
    ensures FindBestMatch(ExtractKeywords("what is this", ["headlight"]), [Detection(b, "bicycle", c)], sim) == None
  {
    WhatIsThisKeywords();
    var dets := [Detection(b, "bicycle", c)];
    assert MatchTerms([]) == Fallback;
    assert TermSum(Fallback, "bicycle", sim) == sim("car", "bicycle") + sim("vehicle", "bicycle");
    var s := Scores(Fallback, dets, sim);
    assert s[0] < Threshold;
  }

  /** With no keywords a car is still found through the fallback terms, as
      long as "vehicle" is not strongly unlike "car". */
  lemma FallbackFindsCar(sim: Similarity, b: Box, c: real)
    requires sim("car", "car") == 1.0
    requires sim("vehicle", "car") >= -0.4
    ensures FindBestMatch([], [Detection(b, "car", c)], sim) == Some(Detection(b, "car", c))
  {
    var dets := [Detection(b, "car", c)];
    assert TermSum(Fallback, "car", sim) == sim("car", "car") + sim("vehicle", "car");
    var s := Scores(Fallback, dets, sim);
    assert s[0] >= Threshold;
    assert ArgMax(s) == 0;
  }
}
