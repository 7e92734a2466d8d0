/**
 * An end-to-end request: a requester who mentions
 * hiking and cooking is matched with the candidate whose embedding points the same way.
 * The tagger is a lookup table holding what an English tagger says of the three sentences.
 */
module Scenario {
  import opened Wrappers
  import opened Keywords
  import opened Cooldown
  import opened Candidates
  import opened Matching
  import Strings
  import Seqs
  import MatchReason

  const U1Text: string := "I love hiking and cooking"
  const U2Text: string := "I love hiking"
  const U3Text: string := "I enjoy painting"

  /** The tagger's output for the three lower-cased sentences; nothing for any other text. */
  function TagTable(text: string): seq<Token> {
    if text == "i love hiking and cooking" then
      [Token("i", true, "PRON"), Token("love", true, "VERB"), Token("hiking", true, "NOUN"),
       Token("and", true, "CCONJ"), Token("cooking", true, "NOUN")]
    else if text == "i love hiking" then
      [Token("i", true, "PRON"), Token("love", true, "VERB"), Token("hiking", true, "NOUN")]
    else if text == "i enjoy painting" then
      [Token("i", true, "PRON"), Token("enjoy", true, "VERB"), Token("painting", true, "NOUN")]
    else []
  }

  const Users: Store := [
    Profile("U1", Some("M"), U1Text, Some([1.0, 0.0])),
    Profile("U2", Some("F"), U2Text, Some([1.0, 0.0])),
    Profile("U3", Some("F"), U3Text, Some([0.0, 1.0]))
  ]

  /** U1 looking for "F" with an empty log is matched with U2 on "hiking", at similarity 1. */
  lemma HikingScenario()
    ensures FindBestMatch(Users, map[], "U1", "F", 0, CooldownDays, TagTable)
         == Outcome(
              Success(Some(MatchResult("U1", U1Text, "U2", U2Text, 1.0, ["hiking"],
                                       "You both share an interest in hiking", true))),
              map[("U1", "U2") := 0, ("U2", "U1") := 0])
  {
    var pool := RequestPool(Users, map[], "U1", "F", 0, CooldownDays, TagTable);
    PoolScenario();
    var index := Similarity.FlatIP(2, pool.vectors);
    SearchScenario(pool.vectors);
    FindBestMatchOnHit(Users, map[], "U1", "F", 0, CooldownDays, TagTable, index, Similarity.Hit(0, 1.0));
    assert Requester(Users, "U1") == Users[0];
    SuccessPathScenario(pool);
  }

  lemma PoolScenario()
    ensures var pool := RequestPool(Users, map[], "U1", "F", 0, CooldownDays, TagTable);
      && pool.vectors == [[1.0, 0.0], [0.0, 1.0]]
      && pool.users == ["U2", "U3"]
      && pool.keywords[0] == ["hiking"]
  {
    QueryScenario();
    var cands := [Users[1], Users[2]];
    SurvivorsScenario();
    var pool := PoolOf(cands, TagTable);
    assert pool.vectors == [[1.0, 0.0], [0.0, 1.0]];
    assert pool.users == ["U2", "U3"];
    KeywordsOfScenario();
    assert pool.keywords[0] == ["hiking"];
  }

  lemma SurvivorsScenario()
    ensures Survivors([Users[1], Users[2]], "U1", map[], 0, CooldownDays) == [Users[1], Users[2]]
  {
    var cands := [Users[1], Users[2]];
    assert Eligible(Users[1], "U1", map[], 0, CooldownDays);
    assert Eligible(Users[2], "U1", map[], 0, CooldownDays);
    assert cands[1..][1..] == [];
  }

  lemma SearchScenario(vectors: seq<Similarity.Vector>)
    requires vectors == [[1.0, 0.0], [0.0, 1.0]]
    ensures Similarity.BuildIndex(vectors) == Success(Some(Similarity.FlatIP(2, vectors)))
    ensures Similarity.Search(Similarity.FlatIP(2, vectors), [1.0, 0.0]) == Success(Some(Similarity.Hit(0, 1.0)))
  {
    assert Similarity.Dot([1.0, 0.0], [1.0, 0.0]) == 1.0;
    assert Similarity.Dot([1.0, 0.0], [0.0, 1.0]) == 0.0;
  }

  lemma SuccessPathScenario(pool: Pool)
    requires pool.Parallel() && |pool.users| == 2
    requires pool.users[0] == "U2" && pool.keywords[0] == ["hiking"]
    ensures MatchFound(Users, map[], "U1", Users[0], pool, Similarity.Hit(0, 1.0), 0, TagTable)
         == Outcome(
              Success(Some(MatchResult("U1", U1Text, "U2", U2Text, 1.0, ["hiking"],
                                       "You both share an interest in hiking", true))),
              map[("U1", "U2") := 0, ("U2", "U1") := 0])
  {
    KeywordsOfScenario();
    assert FindProfile(Users, "U2") == Some(Users[1]);
    ExplanationScenario();
    LogMatchReverseIsIdempotent(map[], "U1", "U2", 0);
    assert LogMatch(map[], "U1", "U2", 0) == map[("U1", "U2") := 0, ("U2", "U1") := 0];
  }

  lemma ExplanationScenario()
    ensures MatchReason.SharedKeywords(["hiking", "cooking"], ["hiking"]) == ["hiking"]
    ensures MatchReason.Reason(["hiking"]) == "You both share an interest in hiking"
  {
    var both := Seqs.Filter((w: string) => w in ["hiking"], ["hiking", "cooking"]);
    assert ["hiking", "cooking"][1..][1..] == [];
    assert "cooking" != "hiking";
    assert both == ["hiking"];
    assert Seqs.Dedup(both) == ["hiking"] by { assert ["hiking"][..0] == []; }
    assert Strings.Lower("hiking") == "hiking";
    assert "hiking" !in MatchReason.GenericWords;
    assert Seqs.Filter((w: string) => Strings.Lower(w) !in MatchReason.GenericWords, ["hiking"]) == ["hiking"] by {
      assert ["hiking"][1..] == [];
    }
  }

  lemma QueryScenario()
    ensures QueryCandidates(Users, "F", "U1") == [Users[1], Users[2]]
  {
    var keep := (p: Profile) => p.gender == Some("F") && p.userId != "U1";
    assert "U2" != "U1" && "U3" != "U1" by { assert "U2"[1] != "U1"[1]; assert "U3"[1] != "U1"[1]; }
    assert Users[1..][1..][1..] == [];
    assert Seqs.Filter(keep, Users[1..][1..]) == [Users[2]];
    assert Seqs.Filter(keep, Users[1..]) == [Users[1], Users[2]];
  }

  lemma KeywordsOfScenario()
    ensures KeywordsOf(TagTable, U1Text) == ["hiking", "cooking"]
    ensures KeywordsOf(TagTable, U2Text) == ["hiking"]
  {
    LowerScenario();
    FirstSentenceKeywords();
    SecondSentenceKeywords();
  }

  lemma FirstSentenceKeywords()
    ensures ExtractKeywords(TagTable("i love hiking and cooking")) == ["hiking", "cooking"]
  {
    LongWordsAreNotStopWords();
    var t1 := TagTable("i love hiking and cooking");
    assert !IsKeywordToken(t1[0]);
    assert !IsKeywordToken(t1[1]);
    assert IsKeywordToken(t1[2]);
    assert !IsKeywordToken(t1[3]);
    assert IsKeywordToken(t1[4]);
    assert t1[1..][1..][1..][1..][1..] == [];
    assert KeywordTexts(t1) == ["hiking", "cooking"];
    assert ["hiking", "cooking"][..1] == ["hiking"];
    assert ["hiking"][..0] == [];
  }

  lemma SecondSentenceKeywords()
    ensures ExtractKeywords(TagTable("i love hiking")) == ["hiking"]
  {
    LongWordsAreNotStopWords();
    var t2 := TagTable("i love hiking");
    assert !IsKeywordToken(t2[0]);
    assert !IsKeywordToken(t2[1]);
    assert IsKeywordToken(t2[2]);
    assert t2[1..][1..][1..] == [];
    assert KeywordTexts(t2) == ["hiking"];
    assert ["hiking"][..0] == [];
  }

  lemma LongWordsAreNotStopWords()
    ensures forall w: string :: |w| >= 6 ==> w !in StopKeywords
  {
    forall w: string | |w| >= 6 ensures w !in StopKeywords {
      assert forall s :: s in StopKeywords ==> |s| < 6;
    }
  }

  lemma LowerScenario()
    ensures Strings.Lower(U1Text) == "i love hiking and cooking"
    ensures Strings.Lower(U2Text) == "i love hiking"
  {
  }
}
