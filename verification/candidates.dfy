/**
 * The profile store and the candidate pool of one match request
 * (faiss_index.py, the `find_one`/`find` queries and the loop that fills the
 * parallel lists `valid_vectors`, `valid_users`, `valid_transcripts`, `valid_keywords`).
 */
module Candidates {
  import opened Wrappers
  import opened Seqs
  import opened Keywords
  import opened Cooldown
  import opened Similarity

  /** One stored profile. A missing transcript reads as "" everywhere the matcher looks. */
  datatype Profile = Profile(
    userId: UserId,
    gender: Option<string>,
    transcript: string,
    embedding: Option<Vector>)

  /** The profile collection, in its natural order. */
  type Store = seq<Profile>

  /** `find_one({"user_id": id})`: the first profile with that id, if any. */
  function FindProfile(store: Store, id: UserId): (r: Option<Profile>)
    ensures r.None? <==> forall i :: 0 <= i < |store| ==> store[i].userId != id
    ensures r.Some? ==>
      exists i :: 0 <= i < |store| && store[i] == r.value && r.value.userId == id &&
        forall j :: 0 <= j < i ==> store[j].userId != id
    decreases |store|
  {
    if |store| == 0 then None
    else if store[0].userId == id then Some(store[0])
    else
      var r := FindProfile(store[1..], id);
      assert forall i :: 1 <= i < |store| ==> store[i] == store[1..][i - 1];
      r
  }

  /** `find({"gender": gender, "user_id": {"$ne": requester}})`, in store order. */
  function QueryCandidates(store: Store, gender: string, requester: UserId): (r: seq<Profile>)
    ensures forall p :: p in r <==> p in store && p.gender == Some(gender) && p.userId != requester
  {
    Filter((p: Profile) => p.gender == Some(gender) && p.userId != requester, store)
  }

  /** The query keeps store order: querying a concatenation concatenates the query results. */
  lemma QueryCandidatesAppend(a: Store, b: Store, gender: string, requester: UserId)
    ensures QueryCandidates(a + b, gender, requester)
         == QueryCandidates(a, gender, requester) + QueryCandidates(b, gender, requester)
  {
    FilterAppend((p: Profile) => p.gender == Some(gender) && p.userId != requester, a, b);
  }

  /** A queried candidate survives when it has an embedding and is not cooling down with the requester. */
  predicate Eligible(c: Profile, requester: UserId, log: MatchLog, now: Timestamp, days: nat) {
    c.embedding.Some? && !IsInCooldown(log, requester, c.userId, now, days)
  }

  /** `Eligible` as a filter test. */
  function EligibleTest(requester: UserId, log: MatchLog, now: Timestamp, days: nat): Profile -> bool {
    (c: Profile) => Eligible(c, requester, log, now, days)
  }

  /** The four parallel lists the matcher fills, one entry per surviving candidate. */
  datatype Pool = Pool(
    vectors: seq<Vector>,
    users: seq<UserId>,
    transcripts: seq<string>,
    keywords: seq<seq<string>>)
  {
    predicate Parallel() {
      |vectors| == |users| == |transcripts| == |keywords|
    }

    function Append(other: Pool): Pool {
      Pool(vectors + other.vectors, users + other.users,
           transcripts + other.transcripts, keywords + other.keywords)
    }
  }

  /** The pool entries for candidates already known to survive, in the same order. */
  function PoolOf(survivors: seq<Profile>, tokenize: string -> seq<Token>): (pool: Pool)
    requires forall k :: 0 <= k < |survivors| ==> survivors[k].embedding.Some?
    ensures pool.Parallel() && |pool.users| == |survivors|
  {
    Pool(
      seq(|survivors|, k requires 0 <= k < |survivors| && survivors[k].embedding.Some? =>
        survivors[k].embedding.value),
      seq(|survivors|, k requires 0 <= k < |survivors| => survivors[k].userId),
      seq(|survivors|, k requires 0 <= k < |survivors| => survivors[k].transcript),
      seq(|survivors|, k requires 0 <= k < |survivors| => KeywordsOf(tokenize, survivors[k].transcript)))
  }

  /** The candidates that survive the filter, in query order. */
  function Survivors(candidates: seq<Profile>, requester: UserId, log: MatchLog, now: Timestamp, days: nat)
    : (s: seq<Profile>)
    ensures forall c :: c in s <==> c in candidates && Eligible(c, requester, log, now, days)
  {
    Filter(EligibleTest(requester, log, now, days), candidates)
  }

  /** The filter keeps query order: filtering a concatenation concatenates the survivors. */
  lemma SurvivorsAppend(a: seq<Profile>, b: seq<Profile>, requester: UserId, log: MatchLog, now: Timestamp,
                        days: nat)
    ensures Survivors(a + b, requester, log, now, days)
         == Survivors(a, requester, log, now, days) + Survivors(b, requester, log, now, days)
  {
    FilterAppend(EligibleTest(requester, log, now, days), a, b);
  }

  /** The candidate pool of one request. */
  function CandidatePool(candidates: seq<Profile>, requester: UserId, log: MatchLog, now: Timestamp, days: nat,
                         tokenize: string -> seq<Token>): (pool: Pool)
    ensures pool.Parallel()
    ensures |pool.users| <= |candidates|
  {
    var s := Survivors(candidates, requester, log, now, days);
    assert forall k :: 0 <= k < |s| ==> s[k] in s;
    PoolOf(s, tokenize)
  }

  /** Every pool entry comes from a queried candidate that has an embedding and is not cooling down. */
  lemma CandidatePoolSound(candidates: seq<Profile>, requester: UserId, log: MatchLog, now: Timestamp, days: nat,
                           tokenize: string -> seq<Token>, k: nat)
    requires k < |CandidatePool(candidates, requester, log, now, days, tokenize).users|
    ensures var pool := CandidatePool(candidates, requester, log, now, days, tokenize);
      exists c :: c in candidates && Eligible(c, requester, log, now, days) &&
        c.userId == pool.users[k] && c.embedding == Some(pool.vectors[k]) &&
        c.transcript == pool.transcripts[k] && pool.keywords[k] == KeywordsOf(tokenize, c.transcript)
  {
    var s := Survivors(candidates, requester, log, now, days);
    assert s[k] in s;
  }

  /**
   * Every queried candidate that has an embedding and is not cooling down has its own entry
   * in the pool: its id, its vector, its transcript and its keywords at one position, even
   * when another stored profile shares its id.
   */
  lemma CandidatePoolComplete(candidates: seq<Profile>, requester: UserId, log: MatchLog, now: Timestamp, days: nat,
                              tokenize: string -> seq<Token>, c: Profile)
    requires c in candidates && Eligible(c, requester, log, now, days)
    ensures var pool := CandidatePool(candidates, requester, log, now, days, tokenize);
      exists k :: 0 <= k < |pool.users| && pool.users[k] == c.userId && pool.vectors[k] == c.embedding.value &&
        pool.transcripts[k] == c.transcript && pool.keywords[k] == KeywordsOf(tokenize, c.transcript)
  {
    var pool := CandidatePool(candidates, requester, log, now, days, tokenize);
    var s := Survivors(candidates, requester, log, now, days);
    var k :| 0 <= k < |s| && s[k] == c;
    assert pool.users[k] == c.userId && pool.vectors[k] == c.embedding.value;
    assert pool.transcripts[k] == c.transcript && pool.keywords[k] == KeywordsOf(tokenize, c.transcript);
  }

  /** The pool keeps query order: filtering a concatenation is concatenating the filtered parts. */
  lemma {:induction false} CandidatePoolAppend(a: seq<Profile>, b: seq<Profile>, requester: UserId,
                                               log: MatchLog, now: Timestamp, days: nat,
                                               tokenize: string -> seq<Token>)
    ensures CandidatePool(a + b, requester, log, now, days, tokenize)
         == CandidatePool(a, requester, log, now, days, tokenize).Append(
              CandidatePool(b, requester, log, now, days, tokenize))
  {
    SurvivorsAppend(a, b, requester, log, now, days);
    var sa := Survivors(a, requester, log, now, days);
    var sb := Survivors(b, requester, log, now, days);
    assert Survivors(a + b, requester, log, now, days) == sa + sb;
    assert forall k :: 0 <= k < |sa| ==> sa[k] in sa;
    assert forall k :: 0 <= k < |sb| ==> sb[k] in sb;
    PoolOfAppend(sa, sb, tokenize);
  }

  lemma PoolOfAppend(sa: seq<Profile>, sb: seq<Profile>, tokenize: string -> seq<Token>)
    requires forall k :: 0 <= k < |sa| ==> sa[k].embedding.Some?
    requires forall k :: 0 <= k < |sb| ==> sb[k].embedding.Some?
    ensures PoolOf(sa + sb, tokenize) == PoolOf(sa, tokenize).Append(PoolOf(sb, tokenize))
  {
    var pa := PoolOf(sa, tokenize);
    var pb := PoolOf(sb, tokenize);
    var pab := PoolOf(sa + sb, tokenize);
    assert pab.vectors == pa.vectors + pb.vectors;
    assert pab.users == pa.users + pb.users;
    assert pab.transcripts == pa.transcripts + pb.transcripts;
    assert pab.keywords == pa.keywords + pb.keywords;
  }

  /** A single candidate contributes one entry when eligible and none otherwise. */
  lemma SingleCandidatePool(c: Profile, requester: UserId, log: MatchLog, now: Timestamp, days: nat,
                            tokenize: string -> seq<Token>)
    ensures Eligible(c, requester, log, now, days) ==>
      CandidatePool([c], requester, log, now, days, tokenize)
        == Pool([c.embedding.value], [c.userId], [c.transcript], [KeywordsOf(tokenize, c.transcript)])
    ensures !Eligible(c, requester, log, now, days) ==>
      CandidatePool([c], requester, log, now, days, tokenize) == Pool([], [], [], [])
  {
    assert [c][1..] == [];
    assert Survivors([c], requester, log, now, days) == if Eligible(c, requester, log, now, days) then [c] else [];
  }

  /** One more candidate extends the pool by its own entry when eligible, and leaves it alone otherwise. */
  lemma CandidatePoolStep(prefix: seq<Profile>, c: Profile, requester: UserId, log: MatchLog, now: Timestamp,
                          days: nat, tokenize: string -> seq<Token>)
    ensures var before := CandidatePool(prefix, requester, log, now, days, tokenize);
      CandidatePool(prefix + [c], requester, log, now, days, tokenize)
        == if Eligible(c, requester, log, now, days)
           then before.Append(Pool([c.embedding.value], [c.userId], [c.transcript], [KeywordsOf(tokenize, c.transcript)]))
           else before.Append(Pool([], [], [], []))
  {
    CandidatePoolAppend(prefix, [c], requester, log, now, days, tokenize);
    SingleCandidatePool(c, requester, log, now, days, tokenize);
  }

  /** The filtering loop as written: one pass over the candidates, appending to four parallel lists. */
  method CollectCandidates(candidates: seq<Profile>, requester: UserId, log: MatchLog, now: Timestamp, days: nat,
                           tokenize: string -> seq<Token>)
    returns (vectors: seq<Vector>, users: seq<UserId>, transcripts: seq<string>, keywords: seq<seq<string>>)
    ensures |vectors| == |users| == |transcripts| == |keywords|
    ensures Pool(vectors, users, transcripts, keywords)
         == CandidatePool(candidates, requester, log, now, days, tokenize)
  {
    vectors, users, transcripts, keywords := [], [], [], [];
    for i := 0 to |candidates|
      invariant Pool(vectors, users, transcripts, keywords)
             == CandidatePool(candidates[..i], requester, log, now, days, tokenize)
    {
      var cand := candidates[i];
      assert candidates[..i + 1] == candidates[..i] + [cand];
      CandidatePoolStep(candidates[..i], cand, requester, log, now, days, tokenize);
      if cand.embedding.None? || IsInCooldown(log, requester, cand.userId, now, days) {
        continue;
      }
      vectors := vectors + [cand.embedding.value];
      users := users + [cand.userId];
      transcripts := transcripts + [cand.transcript];
      keywords := keywords + [KeywordsOf(tokenize, cand.transcript)];
    }
    assert candidates[..|candidates|] == candidates;
  }
}
