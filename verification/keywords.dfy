/**
 * Keyword extraction from a transcript (transcript_utils.py).
 * The part-of-speech tagger is not modelled: it is the `tokenize` function a
 * caller supplies, and each token it yields carries the tagger's verdicts.
 */
module Keywords {
  import opened Seqs
  import Strings

  /** One tagged token: its text, whether the tagger found it alphabetic, its coarse POS tag. */
  datatype Token = Token(text: string, isAlpha: bool, pos: string)

  /** Words never reported as keywords (`STOP_KEYWORDS`). */
  const StopKeywords: set<string> :=
    {"love", "like", "hello", "hi", "hey", "yes", "my", "name", "also", "the", "a", "an", "i"}

  /** The POS tags of content words. */
  const ContentTags: set<string> := {"NOUN", "VERB"}

  /** The three tests a token must pass to become a keyword. */
  predicate IsKeywordToken(t: Token) {
    t.isAlpha && t.text !in StopKeywords && t.pos in ContentTags
  }

  /** The texts of the keyword tokens, in token order, duplicates included. */
  function KeywordTexts(tokens: seq<Token>): (r: seq<string>)
    ensures forall w :: w in r <==>
      exists i :: 0 <= i < |tokens| && IsKeywordToken(tokens[i]) && tokens[i].text == w
    decreases |tokens|
  {
    if |tokens| == 0 then []
    else
      var rest := KeywordTexts(tokens[1..]);
      assert forall i :: 1 <= i < |tokens| ==> tokens[i] == tokens[1..][i - 1];
      if IsKeywordToken(tokens[0]) then [tokens[0].text] + rest else rest
  }

  /** `extract_keywords` over an already tagged token sequence. */
  function ExtractKeywords(tokens: seq<Token>): (r: seq<string>)
    ensures NoDuplicates(r)
    ensures forall w :: w in r ==> w !in StopKeywords
    ensures forall w :: w in r ==>
      exists i :: 0 <= i < |tokens| && tokens[i].text == w && tokens[i].isAlpha && tokens[i].pos in ContentTags
    ensures forall i :: 0 <= i < |tokens| && IsKeywordToken(tokens[i]) ==> tokens[i].text in r
  {
    Dedup(KeywordTexts(tokens))
  }

  /** `extract_keywords(text)`: the tagger runs on the lower-cased text. */
  function KeywordsOf(tokenize: string -> seq<Token>, text: string): (r: seq<string>)
    ensures NoDuplicates(r)
    ensures forall w :: w in r <==>
      exists t :: t in tokenize(Strings.Lower(text)) && IsKeywordToken(t) && t.text == w
  {
    ExtractKeywords(tokenize(Strings.Lower(text)))
  }

  /** What a tagger promises of the tokens it flags alphabetic: letters only, so no comma. */
  ghost predicate HonestAlpha(tokenize: string -> seq<Token>) {
    forall text, t :: t in tokenize(text) && t.isAlpha ==> Strings.CommaFree(t.text)
  }

  /** Keywords inherit comma-freedom from an honest tagger. */
  lemma KeywordsCommaFree(tokenize: string -> seq<Token>, text: string)
    requires HonestAlpha(tokenize)
    ensures forall w :: w in KeywordsOf(tokenize, text) ==> Strings.CommaFree(w)
  {
    forall w | w in KeywordsOf(tokenize, text)
      ensures Strings.CommaFree(w)
    {
      var t :| t in tokenize(Strings.Lower(text)) && IsKeywordToken(t) && t.text == w;
    }
  }
}
