/**
 * The staleness gate every polled node runs first: the minutes since the node's own
 * `last_date`, rounded to a tenth, decide whether the node asks the API again.
 * Times are whole seconds on the plug-in's clock.
 */
module Gate {
  import opened Wrappers
  import opened FixedPoint

  /** The poll flags the host passes to a node's `updateInfo`. */
  const ShortPoll: string := "shortPoll"
  const LongPoll: string := "longPoll"

  /** The rate limit, in minutes, when the `rate_limit` parameter is unset. */
  const DefaultRate: Fixed := 5 * One

  /** How long before start-up the module-level `last_date` is set, in seconds. */
  const InitialAge: int := 60 * 60

  /** The rate a node is created with: the `rate_limit` parameter, or 5 minutes. */
  function RateLimit(param: Option<Fixed>): (rate: Fixed)
    ensures param.None? ==> rate == DefaultRate
    ensures param.Some? ==> rate == param.value
  {
    param.GetOr(DefaultRate)
  }

  /** `round((now - last) / timedelta(seconds=60), 1)`, in minutes. */
  function LastMinute(now: int, last: int): (m: Fixed)
    ensures m % 100_000 == 0
    ensures 2 * Abs(60 * m - (now - last) * One) <= 6 * One
  {
    var tenths := RoundDiv(now - last, 6);
    assert (tenths * 100_000) % 100_000 == 0 by { MultipleMod(tenths, 100_000); }
    assert 60 * (tenths * 100_000) - (now - last) * One == One * (6 * tenths - (now - last));
    tenths * 100_000
  }

  /** `(last_minute >= self.rate) | (last_minute == 0.0)`. */
  predicate Due(lastMinute: Fixed, rate: Fixed) {
    lastMinute >= rate || lastMinute == 0
  }

  /** Whether a node whose `last_date` is `last` fetches at `now`: when the rounded age
      reaches the rate, or when `last_date` is within three seconds of now. */
  predicate IsDue(now: int, last: int, rate: Fixed): (due: bool)
    ensures due <==> LastMinute(now, last) >= rate || -3 <= now - last <= 3
  {
    ZeroSentinel(now, last);
    Due(LastMinute(now, last), rate)
  }

  /** The zero sentinel fires exactly when `last_date` is within three seconds of now. */
  lemma ZeroSentinel(now: int, last: int)
    ensures LastMinute(now, last) == 0 <==> -3 <= now - last <= 3
  {
    var s := now - last;
    if -3 <= s <= 3 {
      assert RoundDiv(s, 6) == 0;
    } else if s > 3 {
      assert RoundDiv(s, 6) >= 1;
    } else {
      assert RoundDiv(s, 6) <= -1;
    }
  }

  /** Once the rounded elapsed time reaches the rate, it stays reached as time goes on. */
  lemma RateReachedStays(now1: int, now2: int, last: int, rate: Fixed)
    requires now1 <= now2
    requires LastMinute(now1, last) >= rate
    ensures LastMinute(now2, last) >= rate
    ensures IsDue(now2, last, rate)
  {
    RoundDivMonotone(now1 - last, now2 - last, 6);
  }

  /** The zero sentinel is the exception: a node due right after a change is not due a minute later. */
  lemma SentinelNotMonotone(last: int)
    ensures IsDue(last, last, DefaultRate)
    ensures !IsDue(last + 60, last, DefaultRate)
  {
    assert RoundDiv(0, 6) == 0;
    assert RoundDiv(60, 6) == 10;
  }

  /** With the default rate: not due two minutes after the last change, due after six. */
  lemma DefaultRateScenario(last: int)
    ensures !IsDue(last + 2 * 60, last, RateLimit(None))
    ensures IsDue(last + 6 * 60, last, RateLimit(None))
  {
    assert RoundDiv(120, 6) == 20;
    assert RoundDiv(360, 6) == 60;
  }

  /**
   * Nodes start with `last_date` an hour before start-up, so with any rate up to an
   * hour every node fetches on its first poll.
   */
  lemma FirstPollDue(start: int, now: int, rate: Fixed)
    requires start <= now
    requires rate <= 60 * One
    ensures IsDue(now, start - InitialAge, rate)
  {
    assert RoundDiv(InitialAge, 6) == 600;
    RateReachedStays(start, now, start - InitialAge, rate);
  }
}
