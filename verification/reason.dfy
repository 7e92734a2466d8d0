/**
 * The explanation attached to a match (faiss_index.py, `matched_on` and
 * `match_reason`): the keywords both users share, minus a few generic words.
 */
module MatchReason {
  import opened Wrappers
  import opened Seqs
  import opened Strings

  /** Shared words that explain nothing, compared after lower-casing. */
  const GenericWords: seq<string> := ["love", "like", "fun"]

  const FallbackReason: string := "Your vibes match with each other"
  const SharedPrefix: string := "You both share an interest in "

  /** `matched_on`: the words in both keyword lists, once each, with the generic ones removed. */
  function SharedKeywords(mine: seq<string>, theirs: seq<string>): (r: seq<string>)
    ensures NoDuplicates(r)
    ensures forall w :: w in r <==> w in mine && w in theirs && Lower(w) !in GenericWords
  {
    var both := Dedup(Filter((w: string) => w in theirs, mine));
    Filter((w: string) => Lower(w) !in GenericWords, both)
  }

  /** No generic word survives, whatever its case. */
  lemma SharedKeywordsDropGeneric(mine: seq<string>, theirs: seq<string>, w: string)
    requires w in SharedKeywords(mine, theirs)
    ensures Lower(w) != "love" && Lower(w) != "like" && Lower(w) != "fun"
  {
    assert Lower(w) !in GenericWords;
  }

  /** `match_reason` for a given `matched_on`. */
  function Reason(matchedOn: seq<string>): (r: string)
    ensures r == FallbackReason <==> |matchedOn| == 0
    ensures |matchedOn| > 0 ==> |r| >= |SharedPrefix| && r[..|SharedPrefix|] == SharedPrefix
  {
    if |matchedOn| == 0 then FallbackReason
    else
      var r := SharedPrefix + Join(matchedOn);
      assert r[3] != FallbackReason[3];
      r
  }

  /** Reads the shared words back out of a reason string; `None` for text no reason has. */
  function ParseReason(reason: string): Option<seq<string>> {
    if reason == FallbackReason then Some([])
    else if |reason| >= |SharedPrefix| && reason[..|SharedPrefix|] == SharedPrefix then
      Some(Split(reason[|SharedPrefix|..]))
    else None
  }

  /** The reason string loses nothing: comma-free shared words can be read back from it in order. */
  lemma ReasonRoundTrip(matchedOn: seq<string>)
    requires forall k :: 0 <= k < |matchedOn| ==> CommaFree(matchedOn[k])
    ensures ParseReason(Reason(matchedOn)) == Some(matchedOn)
  {
    if |matchedOn| > 0 {
      var r := Reason(matchedOn);
      assert r[|SharedPrefix|..] == Join(matchedOn);
      SplitJoin(matchedOn);
    }
  }
}
