/**
 * The match log and the cooldown test (faiss_index.py, `is_in_cooldown` and `log_match`).
 * The log is a map from a directed pair (user, matched user) to the time of their
 * last match; times are integer microseconds read from a clock the caller passes in.
 */
module Cooldown {

  type UserId = string
  type Timestamp = int
  type MatchLog = map<(UserId, UserId), Timestamp>

  /** `COOLDOWN_DAYS`: the cooldown length the source ships with. */
  const CooldownDays: nat := 0

  const MicrosPerDay: int := 86_400_000_000

  /**
   * `is_in_cooldown(a, b)` at clock reading `now` with a `days`-day window:
   * the pair is cooling down when its last match is less than the window ago.
   */
  function IsInCooldown(log: MatchLog, a: UserId, b: UserId, now: Timestamp, days: nat): (r: bool)
    ensures (a, b) !in log ==> !r
    ensures (a, b) in log && log[(a, b)] + days * MicrosPerDay <= now ==> !r
    ensures (a, b) in log && log[(a, b)] <= now < log[(a, b)] + days * MicrosPerDay ==> r
    ensures (a, b) in log && now < log[(a, b)] ==> r
  {
    if (a, b) in log then now - log[(a, b)] < days * MicrosPerDay else false
  }

  /** With the shipped window of zero days, a pair last matched no later than `now` is never cooling down. */
  lemma ShippedWindowIsInert(log: MatchLog, a: UserId, b: UserId, now: Timestamp)
    requires (a, b) in log ==> log[(a, b)] <= now
    ensures !IsInCooldown(log, a, b, now, CooldownDays)
  {
  }

  /** `log_match(a, b)` at clock reading `now`: upserts both directions of the pair. */
  function LogMatch(log: MatchLog, a: UserId, b: UserId, now: Timestamp): (r: MatchLog)
    ensures r.Keys == log.Keys + {(a, b), (b, a)}
    ensures r[(a, b)] == now && r[(b, a)] == now
    ensures forall k :: k in log && k != (a, b) && k != (b, a) ==> r[k] == log[k]
  {
    log[(a, b) := now][(b, a) := now]
  }

  /** Logging the reverse direction right after changes nothing: the two calls the matcher makes agree. */
  lemma LogMatchReverseIsIdempotent(log: MatchLog, a: UserId, b: UserId, now: Timestamp)
    ensures LogMatch(LogMatch(log, a, b, now), b, a, now) == LogMatch(log, a, b, now)
  {
    var once := LogMatch(log, a, b, now);
    var twice := LogMatch(once, b, a, now);
    assert twice.Keys == once.Keys;
    forall k | k in twice
      ensures twice[k] == once[k]
    {
      if k == (a, b) || k == (b, a) {
      } else {
        assert k in once;
      }
    }
  }

  /** Once logged, with a window of at least one day, each side is cooling down toward the other until it elapses. */
  lemma LoggedPairCoolsBothWays(log: MatchLog, a: UserId, b: UserId, now: Timestamp, later: Timestamp, days: nat)
    requires now <= later < now + days * MicrosPerDay
    ensures IsInCooldown(LogMatch(log, a, b, now), a, b, later, days)
    ensures IsInCooldown(LogMatch(log, a, b, now), b, a, later, days)
  {
  }
}
