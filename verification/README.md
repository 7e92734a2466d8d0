# Matchmaking core, modelled in Dafny

This project models the matching engine of a voice-note matchmaking service.
A user asks for the most similar counterpart of a wanted gender. The engine
loads the requester's stored profile and queries the candidates of that gender.
It drops candidates without an embedding or still in cooldown with the
requester. It searches the rest by inner product over their embeddings, which
are already unit-length or zero. It logs the match in both directions and explains it
through the keywords the two transcripts share. It also models the keyword
filter that turns a tagged transcript into those keywords.

Modules, leaf first:

- `Wrappers`: `Option` and `Result`.
- `Seqs`: order-preserving filter and first-occurrence de-duplication.
- `Strings`: ASCII lower-casing, and `", "` join and split.
- `Keywords`: `extract_keywords`, given the tagger's tokens.
- `Cooldown`: the match log, `is_in_cooldown`, `log_match`.
- `Similarity`: inner product, the flat inner-product index, best-hit search.
- `Candidates`: the profile store, the candidate query, and the candidate pool (the parallel lists).
- `MatchReason`: `matched_on` and `match_reason`.
- `Matching`: `find_best_match_for_user`, as `FindBestMatch`.
- `Scenario`: one concrete end-to-end request.

Everything external is a parameter. This covers the profile store (a sequence
of `Profile` records in natural order), the match log (a map from directed user
pairs to integer timestamps), the clock reading `now`, the cooldown length
`days`, and the tagger (a function from text to tagged tokens). `FindBestMatch`
returns the answer together with the log as it stands after the request. The
answer is a match, no match, or the error numpy and faiss raise when vector
lengths disagree.

In these places the model follows faiss_index.py and transcript_utils.py exactly:

- The candidate query itself filters on gender and on `user_id != requester`.
- Keywords are the lower-cased token texts, not their lemmas.
- The cooldown test is `now - stamp < window`, a strict comparison. So a stamp later than `now` counts as cooling down, even with a zero-day window.
- The matched transcript in the result comes from a second `find_one` on the matched id. It does not come from the candidate list.

## Model

| member | source | states |
|---|---|---|
| `Seqs.Dedup` | transcript_utils.py:39 | `list(set(...))`: has no duplicates and holds exactly the input's elements |
| `Keywords.KeywordTexts` | transcript_utils.py:31-38 | a word is collected iff some token is alphabetic, not a stop keyword, and tagged NOUN or VERB, with that text |
| `Keywords.ExtractKeywords` | transcript_utils.py:29-39 | no duplicates; no stop keyword; each keyword comes from an alphabetic NOUN/VERB token; every token passing all three tests is present |
| `Keywords.KeywordsOf` | transcript_utils.py:29-30 | keywords of a text are exactly the keyword tokens the tagger finds in the lower-cased text, once each |
| `Keywords.KeywordsCommaFree` | transcript_utils.py:34 | with a tagger whose alphabetic tokens hold no comma, no keyword holds a comma |
| `Cooldown.IsInCooldown` | faiss_index.py:25-30 | no log entry means no cooldown; an expired window means no cooldown; a stamp within the window, or later than now, means cooldown |
| `Cooldown.ShippedWindowIsInert` | faiss_index.py:14-30 | with `COOLDOWN_DAYS = 0`, a pair stamped no later than now is never cooling down |
| `Cooldown.LogMatch` | faiss_index.py:32-42 | both directed entries exist and carry the current time; every other key keeps its value; no other key appears |
| `Cooldown.LogMatchReverseIsIdempotent` | faiss_index.py:89-90 | logging `(b, a)` right after `(a, b)` leaves the log exactly as the first call left it |
| `Cooldown.LoggedPairCoolsBothWays` | faiss_index.py:25-42 | after logging a pair, each side is cooling down toward the other until the window elapses |
| `Similarity.BuildIndex` | faiss_index.py:16-23 | no index exactly when there are no vectors; an error exactly when lengths differ; otherwise the index holds every vector in order |
| `Similarity.Dot` | faiss_index.py:77 | the inner product the flat index scores with: zero against a zero vector, and never negative for a vector with itself |
| `Similarity.DotSymmetric` | faiss_index.py:77 | the inner product is the same whichever vector is the query |
| `Similarity.ArgMax` | faiss_index.py:77 | returns a valid position whose inner product with the query is at least that of every vector |
| `Similarity.Search` | faiss_index.py:77-83 | error iff the query length is not the index dimension; no hit iff the index is empty; a hit is maximal and its score is its inner product |
| `Similarity.SingleVectorSearch` | faiss_index.py:73-83 | a one-vector index answers with that vector and its own inner product |
| `Candidates.FindProfile` | faiss_index.py:46 | finds nothing iff no profile has the id; otherwise returns the first profile with that id |
| `Candidates.QueryCandidates` | faiss_index.py:54-57 | returns exactly the stored profiles with the wanted gender and an id other than the requester's |
| `Candidates.QueryCandidatesAppend` | faiss_index.py:54-57 | querying a concatenation of stores concatenates the query results, so the query keeps store order |
| `Candidates.Survivors` | faiss_index.py:61-63 | keeps exactly the queried candidates that have an embedding and are not cooling down with the requester |
| `Candidates.SurvivorsAppend` | faiss_index.py:61-63 | filtering a concatenation of candidates concatenates the survivors, so the filter keeps query order |
| `Candidates.PoolOfAppend` | faiss_index.py:64-68 | appending survivors one after another appends their entries to each of the four lists, in the same order |
| `Candidates.CandidatePool` | faiss_index.py:59-68 | the four lists stay the same length, no longer than the candidate list |
| `Candidates.CandidatePoolSound` | faiss_index.py:61-68 | each pool entry belongs to one queried candidate that has an embedding and is not cooling down with the requester, with that candidate's vector, transcript and keywords |
| `Candidates.CandidatePoolComplete` | faiss_index.py:61-68 | each queried candidate with an embedding that is not cooling down has its own pool entry: its id, vector, transcript and keywords at one position, even when another profile shares its id |
| `Candidates.CandidatePoolAppend` | faiss_index.py:61-68 | the pool keeps query order: the pool of a concatenation is the concatenation of the pools |
| `Candidates.SingleCandidatePool` | faiss_index.py:62-68 | one candidate adds one entry with its own id, vector, transcript and keywords when it passes, and none otherwise |
| `Candidates.CandidatePoolStep` | faiss_index.py:61-68 | one more candidate appends its own id, vector, transcript and keywords to the pool when it is eligible, and leaves the pool as it was otherwise |
| `Candidates.CollectCandidates` | faiss_index.py:59-68 | the loop that appends to the parallel lists keeps them equal in length and builds exactly the candidate pool |
| `MatchReason.SharedKeywords` | faiss_index.py:93-94 | no duplicates; a word is present iff it is in both keyword lists and its lower-cased form is not love, like or fun |
| `MatchReason.SharedKeywordsDropGeneric` | faiss_index.py:94 | no shared keyword lower-cases to love, like or fun |
| `MatchReason.Reason` | faiss_index.py:96-99 | the reason is the fixed fallback iff nothing is shared; otherwise it starts with the "share an interest" prefix |
| `Strings.Lower` | transcript_utils.py:30 | same length; each ASCII capital becomes its lower-case letter and every other character is kept; the result holds no ASCII capital |
| `Strings.LowerIdempotent` | faiss_index.py:94 | lower-casing a keyword that was lower-cased at extraction changes nothing |
| `Strings.JoinShape` | faiss_index.py:97 | `Strings.Join` (`", ".join`) gives "" for no words; otherwise the result opens with the first word, ends with the last, and has the separator right after the first word when there are several |
| `Strings.SplitJoin` | faiss_index.py:97 | `", ".join` of a non-empty list of comma-free words splits back into exactly that list |
| `MatchReason.ReasonRoundTrip` | faiss_index.py:96-99 | the shared words can be read back from the reason, in order, when none holds a comma |
| `Matching.FindBestMatch` | faiss_index.py:45-110 | a missing requester or embedding gives no match and leaves the log unchanged; without a match the log is unchanged; error iff a pooled vector's length differs from the requester's; no match iff the pool is empty; a match iff the requester has a vector and the pool is non-empty with agreeing lengths |
| `Matching.MatchFound` | faiss_index.py:81-110 | the partner is the pool entry at the hit and the score is the hit's; the result echoes the requester and is mutual; the matched transcript is the one stored for the partner's id; the shared keywords explain it; both directions are logged at now and nothing else in the log changes |
| `Matching.FindBestMatchOnHit` | faiss_index.py:73-110 | when the index is built and the search hits, the request takes the success path at that hit |
| `Matching.MatchMaximisesSimilarity` | faiss_index.py:77-83 | the matched id sits at a pool position of maximal inner product with the requester, and the score is that product |
| `Matching.MatchBeatsEveryEligible` | faiss_index.py:54-83 | every stored profile of the wanted gender, other than the requester, with an embedding and not cooling down, has an inner product with the requester no greater than the match's score |
| `Matching.MatchIsEligible` | faiss_index.py:54-68 | the matched user is not the requester, was not cooling down, and is a stored profile with the wanted gender and an embedding |
| `Matching.MatchLogsBothWays` | faiss_index.py:86-109 | the result echoes the requester and is mutual; the partner has a stored profile and the matched transcript is its transcript; both directions are logged at now, with no other change to the log |
| `Matching.MatchReasonReadsBack` | faiss_index.py:93-99 | when the tagger's alphabetic tokens hold no comma, splitting a match's reason after the prefix gives back its `matched_on` list |
| `Matching.MatchExplained` | faiss_index.py:92-99 | `matched_on` holds, once each, exactly the non-generic keywords of both users; the reason is the fallback iff `matched_on` is empty, and otherwise the prefix and the comma-joined words |
| `Matching.ExplanationOfShared` | faiss_index.py:93-99 | the `matched_on` and reason computed from two keyword lists explain them as stated above |
| `Matching.SingleCandidateIsMatched` | faiss_index.py:73-83 | with one pooled candidate of the right length, that candidate is matched with its own inner product as the score |
| `Matching.NoRematchDuringCooldown` | faiss_index.py:61-90 | a second request inside the cooldown window, against the updated log, never returns the same partner |
| `Matching.ShippedCooldownFiltersNobody` | faiss_index.py:59-68 | with the shipped zero-day window and no future-stamped log entry, every queried candidate with an embedding has its own pool entry (id, vector, transcript and keywords) |
| `Scenario.HikingScenario` | faiss_index.py:45-110 | U1 (M, [1,0], "I love hiking and cooking") looking for F among U2 ([1,0], "I love hiking") and U3 ([0,1]) is matched with U2. The score is 1, `matched_on` is ["hiking"], and both directions are logged |

## Left out

- Vector normalisation (`normalize_vector`) needs a square root. Stored embeddings are taken as they are: the embedding step yields either a unit-length vector or, for a blank transcript, a zero vector, and `normalize_vector` leaves both unchanged, so leaving it out loses nothing.
- Inner products are real numbers. float32 rounding is not modelled, nor is the bound of the product to [-1, 1].
- `transcript_to_embedding` wraps a sentence-transformer model, a foreign call. It is not part of this model.
- spaCy loading, tokenisation and tagging are a `tokenize` parameter. Its tokens carry the tagger's text, `is_alpha` flag and POS tag.
- `Strings.Lower` lower-cases ASCII only. Python's `str.lower` also maps non-ASCII letters.
- MongoDB is a profile sequence in natural order plus a match-log map. Connection and storage failures are not modelled.
- BSON truncates stored times to milliseconds. This is not modelled: a stamp is stored exactly as read.
- The clock is the single parameter `now`. The separate `utcnow()` reads inside one request are treated as one reading.
- `Matching.MatchExplained` makes no claim about word order. The order of `list(set(...))` is not defined in Python. The model keeps first-occurrence order of the requester's keywords, and no contract outside the worked example in `Scenario` depends on that order; its helper lemmas `Scenario.KeywordsOfScenario` and `Scenario.FirstSentenceKeywords` state the model's first-occurrence order.
- Ties between equal best scores are not resolved by any contract. `Similarity.ArgMax` happens to pick the first, but only maximality is stated.
- A match-log document without a `timestamp` field is not modelled, because every logged entry carries a time.
- Concurrent upserts on the match log are the store's concern. Each request is modelled as one atomic step.
- `main.py` (HTTP routes, transcription, profile upload) is transport and I/O. It is not part of this model.
