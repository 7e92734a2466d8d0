/**
 * `find_best_match_for_user` (faiss_index.py): load the requester, collect the
 * eligible candidates, search them by inner product, log the match both ways
 * and explain it. The store snapshot, the match log, the clock reading, the
 * cooldown length and the tagger are all inputs; the updated log is an output.
 */
module Matching {
  import opened Wrappers
  import Seqs
  import opened Strings
  import opened Keywords
  import opened Cooldown
  import opened Similarity
  import opened Candidates
  import opened MatchReason

  /** The dictionary the matcher returns on success. */
  datatype MatchResult = MatchResult(
    userId: UserId,
    yourTranscript: string,
    matchedUserId: UserId,
    matchedTranscript: string,
    similarityScore: real,
    matchedOn: seq<string>,
    matchReason: string,
    mutualMatch: bool)

  /**
   * The answer (a match, no match, or the error numpy/faiss raise) together with
   * the match log as it stands afterwards.
   */
  datatype Outcome = Outcome(result: Result<Option<MatchResult>, Error>, log: MatchLog)

  /** The candidate pool a request by `userId` for `lookingFor` sees. */
  function RequestPool(store: Store, log: MatchLog, userId: UserId, lookingFor: string, now: Timestamp,
                       days: nat, tokenize: string -> seq<Token>): Pool
  {
    CandidatePool(QueryCandidates(store, lookingFor, userId), userId, log, now, days, tokenize)
  }

  /** Some pooled vector's length differs from the query's. */
  ghost predicate DimensionsDisagree(pool: Pool, query: Vector) {
    exists i :: 0 <= i < |pool.vectors| && |pool.vectors[i]| != |query|
  }

  /** The requester exists and has an embedding. */
  predicate HasQuery(store: Store, userId: UserId) {
    FindProfile(store, userId).Some? && FindProfile(store, userId).value.embedding.Some?
  }

  /** The requester has a query vector and a non-empty pool whose vectors all share its length. */
  predicate MatchPossible(store: Store, log: MatchLog, userId: UserId, lookingFor: string, now: Timestamp,
                          days: nat, tokenize: string -> seq<Token>)
  {
    && HasQuery(store, userId)
    && var query := Requester(store, userId).embedding.value;
       var pool := RequestPool(store, log, userId, lookingFor, now, days, tokenize);
       && |pool.users| > 0
       && forall i :: 0 <= i < |pool.vectors| ==> |pool.vectors[i]| == |query|
  }

  /**
   * `find_best_match_for_user(userId, lookingFor)` against a store snapshot and a match
   * log, at clock reading `now`, with a cooldown of `days` days.
   */
  function FindBestMatch(store: Store, log: MatchLog, userId: UserId, lookingFor: string, now: Timestamp,
                         days: nat, tokenize: string -> seq<Token>): (out: Outcome)
    ensures !HasQuery(store, userId) ==> out == Outcome(Success(None), log)
    ensures !(out.result.Success? && out.result.value.Some?) ==> out.log == log
    ensures HasQuery(store, userId) ==>
      var query := Requester(store, userId).embedding.value;
      var pool := RequestPool(store, log, userId, lookingFor, now, days, tokenize);
      && (out.result.Failure? <==> DimensionsDisagree(pool, query))
      && (out.result == Success(None) <==> |pool.users| == 0)
    ensures Matched(out) <==> MatchPossible(store, log, userId, lookingFor, now, days, tokenize)
  {
    match FindProfile(store, userId)
    case None => Outcome(Success(None), log)
    case Some(me) =>
      match me.embedding
      case None => Outcome(Success(None), log)
      case Some(query) =>
        var pool := RequestPool(store, log, userId, lookingFor, now, days, tokenize);
        // The two guards of the source (no valid vectors, no index) coincide: both are the empty pool.
        match BuildIndex(pool.vectors)
        case Failure(e) => Outcome(Failure(e), log)
        case Success(None) => Outcome(Success(None), log)
        case Success(Some(index)) =>
          match Search(index, query)
          case Failure(e) => Outcome(Failure(e), log)
          case Success(None) => Outcome(Success(None), log)
          case Success(Some(hit)) => MatchFound(store, log, userId, me, pool, hit, now, tokenize)
  }

  /**
   * The success path at a search hit: the hit's pool entry is the partner, the pair is
   * logged both ways at `now`, and the shared keywords explain the match.
   */
  function MatchFound(store: Store, log: MatchLog, userId: UserId, me: Profile, pool: Pool, hit: Hit,
                      now: Timestamp, tokenize: string -> seq<Token>): (out: Outcome)
    requires pool.Parallel() && hit.position < |pool.users|
    ensures Matched(out)
    ensures var m := out.result.value.value;
      && m.userId == userId
      && m.yourTranscript == me.transcript
      && m.mutualMatch
      && m.matchedUserId == pool.users[hit.position]
      && m.similarityScore == hit.score
      && m.matchedTranscript == (match FindProfile(store, m.matchedUserId)
                                 case Some(p) => p.transcript
                                 case None => "")
      && Explains(m.matchedOn, m.matchReason, KeywordsOf(tokenize, me.transcript), pool.keywords[hit.position])
    ensures var partner := pool.users[hit.position];
      && out.log.Keys == log.Keys + {(userId, partner), (partner, userId)}
      && out.log[(userId, partner)] == now
      && out.log[(partner, userId)] == now
      && forall key :: key in log && key != (userId, partner) && key != (partner, userId) ==>
           out.log[key] == log[key]
  {
    var matchedId := pool.users[hit.position];
    var matchedTranscript := match FindProfile(store, matchedId)
      case Some(p) => p.transcript
      case None => "";
    var log' := LogMatch(LogMatch(log, userId, matchedId, now), matchedId, userId, now);
    LogMatchReverseIsIdempotent(log, userId, matchedId, now);
    var matchedOn := SharedKeywords(KeywordsOf(tokenize, me.transcript), pool.keywords[hit.position]);
    ExplanationOfShared(KeywordsOf(tokenize, me.transcript), pool.keywords[hit.position]);
    var result := MatchResult(userId, me.transcript, matchedId, matchedTranscript,
                              hit.score, matchedOn, Reason(matchedOn), true);
    Outcome(Success(Some(result)), log')
  }

  /** The requester's stored profile. */
  function Requester(store: Store, userId: UserId): Profile
    requires HasQuery(store, userId)
  {
    FindProfile(store, userId).value
  }

  /** When the index is built and the search hits, the request takes the success path at that hit. */
  lemma FindBestMatchOnHit(store: Store, log: MatchLog, userId: UserId, lookingFor: string, now: Timestamp,
                           days: nat, tokenize: string -> seq<Token>, index: Index, hit: Hit)
    requires HasQuery(store, userId)
    requires BuildIndex(RequestPool(store, log, userId, lookingFor, now, days, tokenize).vectors) == Success(Some(index))
    requires Search(index, Requester(store, userId).embedding.value) == Success(Some(hit))
    ensures var pool := RequestPool(store, log, userId, lookingFor, now, days, tokenize);
      hit.position < |pool.users| &&
      FindBestMatch(store, log, userId, lookingFor, now, days, tokenize)
        == MatchFound(store, log, userId, Requester(store, userId), pool, hit, now, tokenize)
  {
  }

  /** The match a request returned, if it returned one. */
  predicate Matched(out: Outcome) {
    out.result.Success? && out.result.value.Some?
  }

  /**
   * A returned match is the pooled candidate with the largest inner product against
   * the requester: its id sits at that pool position and its score is that product.
   */
  lemma {:induction false} MatchMaximisesSimilarity(store: Store, log: MatchLog, userId: UserId, lookingFor: string,
                                                    now: Timestamp, days: nat, tokenize: string -> seq<Token>)
    requires MatchPossible(store, log, userId, lookingFor, now, days, tokenize)
    ensures HasQuery(store, userId)
    ensures var query := Requester(store, userId).embedding.value;
      var pool := RequestPool(store, log, userId, lookingFor, now, days, tokenize);
      var m := FindBestMatch(store, log, userId, lookingFor, now, days, tokenize).result.value.value;
      exists k :: 0 <= k < |pool.users| && pool.users[k] == m.matchedUserId &&
        |pool.vectors[k]| == |query| && m.similarityScore == Dot(query, pool.vectors[k]) &&
        forall j :: 0 <= j < |pool.vectors| ==>
          |pool.vectors[j]| == |query| && Dot(query, pool.vectors[j]) <= m.similarityScore
  {
    var me := Requester(store, userId);
    var query := me.embedding.value;
    var pool := RequestPool(store, log, userId, lookingFor, now, days, tokenize);
    var index := BuildIndex(pool.vectors).value.value;
    var hit := Search(index, query).value.value;
    FindBestMatchOnHit(store, log, userId, lookingFor, now, days, tokenize, index, hit);
    assert pool.users[hit.position] == FindBestMatch(store, log, userId, lookingFor, now, days, tokenize).result.value.value.matchedUserId;
  }

  /**
   * No eligible candidate beats the match: every queried profile that has an embedding
   * and is not cooling down has an inner product with the requester at most the score.
   */
  lemma MatchBeatsEveryEligible(store: Store, log: MatchLog, userId: UserId, lookingFor: string,
                                now: Timestamp, days: nat, tokenize: string -> seq<Token>, c: Profile)
    requires MatchPossible(store, log, userId, lookingFor, now, days, tokenize)
    requires c in store && c.gender == Some(lookingFor) && c.userId != userId
    requires Eligible(c, userId, log, now, days)
    ensures HasQuery(store, userId)
    ensures var query := Requester(store, userId).embedding.value;
      var m := FindBestMatch(store, log, userId, lookingFor, now, days, tokenize).result.value.value;
      |c.embedding.value| == |query| && Dot(query, c.embedding.value) <= m.similarityScore
  {
    var pool := RequestPool(store, log, userId, lookingFor, now, days, tokenize);
    CandidatePoolComplete(QueryCandidates(store, lookingFor, userId), userId, log, now, days, tokenize, c);
    var k :| 0 <= k < |pool.users| && pool.vectors[k] == c.embedding.value;
    MatchMaximisesSimilarity(store, log, userId, lookingFor, now, days, tokenize);
  }

  /**
   * The matched user was queried with the wanted gender, is not the requester,
   * has an embedding and was not cooling down with the requester.
   */
  lemma MatchIsEligible(store: Store, log: MatchLog, userId: UserId, lookingFor: string,
                        now: Timestamp, days: nat, tokenize: string -> seq<Token>)
    requires MatchPossible(store, log, userId, lookingFor, now, days, tokenize)
    ensures var m := FindBestMatch(store, log, userId, lookingFor, now, days, tokenize).result.value.value;
      && m.matchedUserId != userId
      && !IsInCooldown(log, userId, m.matchedUserId, now, days)
      && exists c :: c in store && c.userId == m.matchedUserId && c.gender == Some(lookingFor) &&
           c.embedding.Some?
  {
    MatchMaximisesSimilarity(store, log, userId, lookingFor, now, days, tokenize);
    var pool := RequestPool(store, log, userId, lookingFor, now, days, tokenize);
    var m := FindBestMatch(store, log, userId, lookingFor, now, days, tokenize).result.value.value;
    var k :| 0 <= k < |pool.users| && pool.users[k] == m.matchedUserId;
    CandidatePoolSound(QueryCandidates(store, lookingFor, userId), userId, log, now, days, tokenize, k);
  }

  /**
   * A returned match echoes the requester, is mutual, and has logged both directions of
   * the pair at `now` while leaving every other log entry as it was.
   */
  lemma MatchLogsBothWays(store: Store, log: MatchLog, userId: UserId, lookingFor: string,
                          now: Timestamp, days: nat, tokenize: string -> seq<Token>)
    requires MatchPossible(store, log, userId, lookingFor, now, days, tokenize)
    ensures var out := FindBestMatch(store, log, userId, lookingFor, now, days, tokenize);
      var m := out.result.value.value;
      && m.userId == userId
      && m.mutualMatch
      && m.yourTranscript == Requester(store, userId).transcript
      && FindProfile(store, m.matchedUserId).Some?
      && m.matchedTranscript == FindProfile(store, m.matchedUserId).value.transcript
      && out.log.Keys == log.Keys + {(userId, m.matchedUserId), (m.matchedUserId, userId)}
      && out.log[(userId, m.matchedUserId)] == now
      && out.log[(m.matchedUserId, userId)] == now
      && forall key :: key in log && key != (userId, m.matchedUserId) && key != (m.matchedUserId, userId) ==>
           out.log[key] == log[key]
  {
    var out := FindBestMatch(store, log, userId, lookingFor, now, days, tokenize);
    var m := out.result.value.value;
    LogMatchReverseIsIdempotent(log, userId, m.matchedUserId, now);
    MatchIsEligible(store, log, userId, lookingFor, now, days, tokenize);
  }

  /**
   * `matchedOn` lists, once each, exactly the non-generic words of both `mine` and `theirs`, and
   * `reason` is the fallback exactly when it is empty and lists it otherwise.
   */
  ghost predicate Explains(matchedOn: seq<string>, reason: string, mine: seq<string>, theirs: seq<string>) {
    && Seqs.NoDuplicates(matchedOn)
    && (forall w :: w in matchedOn <==> w in mine && w in theirs && Lower(w) !in GenericWords)
    && (reason == FallbackReason <==> |matchedOn| == 0)
    && (|matchedOn| > 0 ==> reason == SharedPrefix + Join(matchedOn))
  }

  lemma ExplanationOfShared(mine: seq<string>, theirs: seq<string>)
    ensures Explains(SharedKeywords(mine, theirs), Reason(SharedKeywords(mine, theirs)), mine, theirs)
  {
  }

  /**
   * `matched_on` lists, once each, exactly the keywords of both users that are not generic;
   * the reason is the fallback exactly when there are none, and lists them otherwise.
   */
  lemma MatchExplained(store: Store, log: MatchLog, userId: UserId, lookingFor: string,
                       now: Timestamp, days: nat, tokenize: string -> seq<Token>)
    requires MatchPossible(store, log, userId, lookingFor, now, days, tokenize)
    ensures var m := FindBestMatch(store, log, userId, lookingFor, now, days, tokenize).result.value.value;
      var mine := KeywordsOf(tokenize, Requester(store, userId).transcript);
      exists c :: c in store && c.userId == m.matchedUserId &&
        Explains(m.matchedOn, m.matchReason, mine, KeywordsOf(tokenize, c.transcript))
  {
    var pool := RequestPool(store, log, userId, lookingFor, now, days, tokenize);
    var query := Requester(store, userId).embedding.value;
    var index := BuildIndex(pool.vectors).value.value;
    var hit := Search(index, query).value.value;
    FindBestMatchOnHit(store, log, userId, lookingFor, now, days, tokenize, index, hit);
    var k := hit.position;
    CandidatePoolSound(QueryCandidates(store, lookingFor, userId), userId, log, now, days, tokenize, k);
    var c :| c in QueryCandidates(store, lookingFor, userId) && c.userId == pool.users[k] &&
      pool.keywords[k] == KeywordsOf(tokenize, c.transcript);
    assert c in store;
    ExplanationOfShared(KeywordsOf(tokenize, Requester(store, userId).transcript), pool.keywords[k]);
  }

  /**
   * With a tagger whose alphabetic tokens hold no comma, the reason a match carries
   * gives back its `matched_on` list, in order.
   */
  lemma MatchReasonReadsBack(store: Store, log: MatchLog, userId: UserId, lookingFor: string,
                             now: Timestamp, days: nat, tokenize: string -> seq<Token>)
    requires HonestAlpha(tokenize)
    requires MatchPossible(store, log, userId, lookingFor, now, days, tokenize)
    ensures var m := FindBestMatch(store, log, userId, lookingFor, now, days, tokenize).result.value.value;
      ParseReason(m.matchReason) == Some(m.matchedOn)
  {
    var m := FindBestMatch(store, log, userId, lookingFor, now, days, tokenize).result.value.value;
    var mine := KeywordsOf(tokenize, Requester(store, userId).transcript);
    MatchExplained(store, log, userId, lookingFor, now, days, tokenize);
    var c :| c in store && c.userId == m.matchedUserId &&
      Explains(m.matchedOn, m.matchReason, mine, KeywordsOf(tokenize, c.transcript));
    KeywordsCommaFree(tokenize, Requester(store, userId).transcript);
    assert forall k :: 0 <= k < |m.matchedOn| ==> m.matchedOn[k] in mine;
    assert m.matchReason == Reason(m.matchedOn);
    ReasonRoundTrip(m.matchedOn);
  }

  /** With one eligible candidate of matching dimension, that candidate is returned with its own inner product. */
  lemma SingleCandidateIsMatched(store: Store, log: MatchLog, userId: UserId, lookingFor: string,
                                 now: Timestamp, days: nat, tokenize: string -> seq<Token>)
    requires HasQuery(store, userId)
    requires var pool := RequestPool(store, log, userId, lookingFor, now, days, tokenize);
      |pool.users| == 1 && |pool.vectors[0]| == |Requester(store, userId).embedding.value|
    ensures var pool := RequestPool(store, log, userId, lookingFor, now, days, tokenize);
      var out := FindBestMatch(store, log, userId, lookingFor, now, days, tokenize);
      && Matched(out)
      && out.result.value.value.matchedUserId == pool.users[0]
      && out.result.value.value.similarityScore == Dot(Requester(store, userId).embedding.value, pool.vectors[0])
  {
    var pool := RequestPool(store, log, userId, lookingFor, now, days, tokenize);
    var query := Requester(store, userId).embedding.value;
    var built := BuildIndex(pool.vectors);
    assert built.Success? && built.value.Some?;
    var found := Search(built.value.value, query);
    assert found.Success? && found.value.Some? && found.value.value.position == 0;
    FindBestMatchOnHit(store, log, userId, lookingFor, now, days, tokenize, built.value.value, found.value.value);
  }

  /** Within the cooldown window after a match, asking again never returns the same partner. */
  lemma NoRematchDuringCooldown(store: Store, log: MatchLog, userId: UserId, lookingFor: string,
                                now: Timestamp, later: Timestamp, days: nat, tokenize: string -> seq<Token>)
    requires MatchPossible(store, log, userId, lookingFor, now, days, tokenize)
    requires now <= later < now + days * MicrosPerDay
    ensures var first := FindBestMatch(store, log, userId, lookingFor, now, days, tokenize);
      var again := FindBestMatch(store, first.log, userId, lookingFor, later, days, tokenize);
      Matched(again) ==> again.result.value.value.matchedUserId != first.result.value.value.matchedUserId
  {
    var first := FindBestMatch(store, log, userId, lookingFor, now, days, tokenize);
    var again := FindBestMatch(store, first.log, userId, lookingFor, later, days, tokenize);
    MatchLogsBothWays(store, log, userId, lookingFor, now, days, tokenize);
    if Matched(again) {
      MatchIsEligible(store, first.log, userId, lookingFor, later, days, tokenize);
    }
  }

  /**
   * With the shipped zero-day window and no log entry stamped after `now`, the cooldown
   * removes nobody: every queried candidate with an embedding has its own entry in the pool.
   */
  lemma ShippedCooldownFiltersNobody(store: Store, log: MatchLog, userId: UserId, lookingFor: string,
                                     now: Timestamp, tokenize: string -> seq<Token>, c: Profile)
    requires forall key :: key in log ==> log[key] <= now
    requires c in store && c.gender == Some(lookingFor) && c.userId != userId && c.embedding.Some?
    ensures var pool := RequestPool(store, log, userId, lookingFor, now, CooldownDays, tokenize);
      exists k :: 0 <= k < |pool.users| && pool.users[k] == c.userId && pool.vectors[k] == c.embedding.value &&
        pool.transcripts[k] == c.transcript && pool.keywords[k] == KeywordsOf(tokenize, c.transcript)
  {
    ShippedWindowIsInert(log, userId, c.userId, now);
    CandidatePoolComplete(QueryCandidates(store, lookingFor, userId), userId, log, now, CooldownDays, tokenize, c);
    assert RequestPool(store, log, userId, lookingFor, now, CooldownDays, tokenize)
        == CandidatePool(QueryCandidates(store, lookingFor, userId), userId, log, now, CooldownDays, tokenize);
  }
}
