/**
 * The clock arithmetic and the gates of bot.py's scheduler, on integer
 * seconds.
 *
 * `now` is Unix time. The host's naive `datetime.now()` is `now` plus the
 * host's UTC offset ("local" below): `last_post_time` and `reset_time` are
 * local. Moscow time is `now` plus three hours, fixed.
 */
module Schedule {
  import opened Wrappers
  import Config

  const Day: int := 86400
  /** `timezone(timedelta(hours=3))` */
  const MskOffset: int := 10800

  /** `t.replace(hour=0, minute=0, second=0, microsecond=0)` */
  function Midnight(t: int): (m: int)
    ensures m <= t < m + Day
    ensures m % Day == 0
  {
    t - t % Day
  }

  /** The midnight of a day is the latest midnight not after any moment of it. */
  lemma MidnightAtLeast(m: int, t: int)
    requires m % Day == 0 && m <= t
    ensures m <= Midnight(t)
  {
    var k := (t - m) / Day;
    assert t - m == k * Day + (t - m) % Day;
    assert m + k * Day <= t;
    assert (m + k * Day) % Day == 0 by {
      assert m == (m / Day) * Day;
      assert m + k * Day == (m / Day + k) * Day;
    }
    assert m + k * Day == Midnight(t) by {
      assert t == m + k * Day + (t - m) % Day;
      assert 0 <= (t - m) % Day < Day;
    }
  }

  /** The MSK calendar date of `now`, as a day number. */
  function MskDate(now: int): int {
    (now + MskOffset) / Day
  }

  function MskHour(now: int): (h: int)
    ensures 0 <= h < 24
  {
    (now + MskOffset) % Day / 3600
  }

  function MskMinute(now: int): (m: int)
    ensures 0 <= m < 60
  {
    (now + MskOffset) % 3600 / 60
  }

  lemma MskDateMonotone(a: int, b: int)
    requires a <= b
    ensures MskDate(a) <= MskDate(b)
  {
    var x, y := a + MskOffset, b + MskOffset;
    assert x == (x / Day) * Day + x % Day;
    assert y == (y / Day) * Day + y % Day;
  }

  // ---------------------------------------------------------------- cycle gate

  /**
   * The gate of `check_and_publish_new_news`: with a previous post, refuse
   * while fewer than `MIN_HOURS_BETWEEN_POSTS * 60 - 0.1` minutes, that is
   * 1794 seconds, have passed since it.
   */
  function CycleGateOpen(last: Option<int>, local: int): (open: bool)
    ensures last.Some? && local >= last.value + Config.MinSecondsBetweenPosts() ==> open
    ensures last.Some? && last.value <= local < last.value + 60 ==> !open
  {
    last.None? || local - last.value >= Config.MinSecondsBetweenPosts() - 6
  }

  /** One cycle run: when it started, when its post (if any) went out, and
      whether the publishing after the gate succeeded. */
  datatype CycleRun = CycleRun(at: int, done: int, published: bool)

  /** The values `last_post_time` takes over a series of cycle runs: a run
      that passes the gate and publishes records the time it finished. */
  function CyclePosts(last: Option<int>, runs: seq<CycleRun>): seq<int>
    decreases |runs|
  {
    if runs == [] then []
    else
      var r := runs[0];
      if CycleGateOpen(last, r.at) && r.published then [r.done] + CyclePosts(Some(r.done), runs[1..])
      else CyclePosts(last, runs[1..])
  }

  /**
   * Without other posts in between, the gate keeps the posts it lets through
   * at least 1794 seconds apart, and the first one that far from the post
   * before them, whatever the order of the check times.
   */
  lemma {:induction false} CyclePostsSpaced(last: Option<int>, runs: seq<CycleRun>)
    requires forall i :: 0 <= i < |runs| ==> runs[i].at <= runs[i].done
    ensures last.Some? && CyclePosts(last, runs) != [] ==> CyclePosts(last, runs)[0] - last.value >= 1794
    ensures forall k :: 0 <= k < |CyclePosts(last, runs)| - 1 ==>
              CyclePosts(last, runs)[k + 1] - CyclePosts(last, runs)[k] >= 1794
    decreases |runs|
  {
    if runs != [] {
      var r := runs[0];
      if CycleGateOpen(last, r.at) && r.published {
        CyclePostsSpaced(Some(r.done), runs[1..]);
        var tail := CyclePosts(Some(r.done), runs[1..]);
        var posts := [r.done] + tail;
        assert CyclePosts(last, runs) == posts;
        forall k | 0 <= k < |posts| - 1
          ensures posts[k + 1] - posts[k] >= 1794
        {
          if k > 0 {
            assert posts[k + 1] == tail[k] && posts[k] == tail[k - 1];
          }
        }
      } else {
        assert CyclePosts(last, runs) == CyclePosts(last, runs[1..]);
        CyclePostsSpaced(last, runs[1..]);
      }
    }
  }

  /** Two checks a second apart right after a post are both refused. */
  lemma GateClosedRightAfterPost(post: int, check: int)
    requires post <= check && check + 1 < post + 1794
    ensures !CycleGateOpen(Some(post), check) && !CycleGateOpen(Some(post), check + 1)
  {
  }

  // ---------------------------------------------------------------- day reset and quota

  /** The counters `should_publish_now` rewrites. */
  datatype Quota = Quota(postsToday: int, postsTarget: int, resetTime: int)

  /** The lazy day reset at the top of `should_publish_now`. */
  function RollDay(q: Quota, local: int): (r: Quota)
    ensures q.resetTime % Day == 0 ==> r.resetTime % Day == 0 && q.resetTime <= r.resetTime
    ensures q.resetTime <= local ==> r.resetTime <= local < r.resetTime + Day
    ensures r != q ==> r.postsToday == 0 && r.postsTarget == Config.PostsPerDay
  {
    if local >= q.resetTime + Day then Quota(0, Config.PostsPerDay, Midnight(local)) else q
  }

  /** After the reset check the current time lies in the day that starts at
      `reset_time`, so a second check the same day does not reset again. */
  lemma RollDayLandsInDay(q: Quota, local: int)
    requires q.resetTime <= local
    ensures var r := RollDay(q, local);
      r.resetTime <= local < r.resetTime + Day
  {
  }

  /** The `reset_time` values a series of checks installs. */
  function Resets(q: Quota, times: seq<int>): seq<int>
    decreases |times|
  {
    if times == [] then []
    else
      if times[0] >= q.resetTime + Day then
        var r := RollDay(q, times[0]);
        [r.resetTime] + Resets(r, times[1..])
      else Resets(q, times[1..])
  }

  /**
   * Counting starts from a midnight, so each reset moves `reset_time` to a
   * midnight at least a day later: the counter is reset at most once per
   * local calendar day, whatever the order of the checks.
   */
  lemma {:induction false} ResetsOncePerDay(q: Quota, times: seq<int>)
    requires q.resetTime % Day == 0
    ensures forall k :: 0 <= k < |Resets(q, times)| ==>
      Resets(q, times)[k] % Day == 0 && Resets(q, times)[k] >= q.resetTime + Day
    ensures forall k :: 0 <= k < |Resets(q, times)| - 1 ==>
      Resets(q, times)[k + 1] >= Resets(q, times)[k] + Day
    decreases |times|
  {
    if times != [] {
      var r := RollDay(q, times[0]);
      ResetsOncePerDay(r, times[1..]);
      if times[0] >= q.resetTime + Day {
        assert (q.resetTime + Day) % Day == 0;
        MidnightAtLeast(q.resetTime + Day, times[0]);
        assert r.resetTime == Midnight(times[0]);
        var tail := Resets(r, times[1..]);
        var rs := [r.resetTime] + tail;
        forall k | 0 <= k < |rs| - 1
          ensures rs[k + 1] >= rs[k] + Day
        {
          if k > 0 {
            assert rs[k + 1] == tail[k] && rs[k] == tail[k - 1];
          }
        }
        forall k | 0 <= k < |rs|
          ensures rs[k] % Day == 0 && rs[k] >= q.resetTime + Day
        {
          if k > 0 {
            assert rs[k] == tail[k - 1];
          }
        }
      }
    }
  }

  /** `should_publish_now`'s interval test: 0.5 hours, 1800 seconds. */
  function IntervalPassed(last: Option<int>, local: int): (passed: bool)
    ensures passed ==> CycleGateOpen(last, local)
  {
    last.None? || local - last.value >= Config.MinSecondsBetweenPosts()
  }

  /** The verdict of `should_publish_now` (after its reset): room left in the
      quota and the interval passed. */
  function PublishAllowed(q: Quota, last: Option<int>, local: int): (allowed: bool)
    ensures allowed ==> CycleGateOpen(last, local)
    ensures local >= q.resetTime + Day && IntervalPassed(last, local) ==> allowed
  {
    RollDay(q, local).postsToday < RollDay(q, local).postsTarget && IntervalPassed(last, local)
  }

  /** Whatever `should_publish_now` lets through, the cycle gate lets through too. */
  lemma QuotaGateStricter(q: Quota, last: Option<int>, local: int)
    requires PublishAllowed(q, last, local)
    ensures CycleGateOpen(last, local)
  {
  }

  // ---------------------------------------------------------------- price windows

  /** 11:00 to 11:15 (or 22:00 to 22:15) Moscow time. */
  predicate InPriceWindow(hour: int, now: int) {
    MskHour(now) == hour && MskMinute(now) <= 15
  }

  /** `should_post_price_morning` / `should_post_price_evening`, with `last`
      the MSK date of that track's last price post. */
  function ShouldPostPrice(hour: int, last: Option<int>, now: int): (due: bool)
    ensures due ==> MskHour(now) == hour && MskMinute(now) <= 15 && last != Some(MskDate(now))
    ensures due && (hour == Config.PriceMorningHour || hour == Config.PriceEveningHour) ==> CheckInterval(now) == 60
  {
    InPriceWindow(hour, now) && last != Some(MskDate(now))
  }

  /** The two windows never overlap. */
  lemma PriceWindowsDisjoint(now: int)
    ensures !(InPriceWindow(Config.PriceMorningHour, now) && InPriceWindow(Config.PriceEveningHour, now))
  {
  }

  /** One price run: the time of the window check, the time the post went
      out (when `msk_now.date()` is recorded), and whether it did. */
  datatype PriceRun = PriceRun(at: int, done: int, published: bool)

  /** The dates a price track records over a series of runs. */
  function PriceDates(hour: int, last: Option<int>, runs: seq<PriceRun>): seq<int>
    decreases |runs|
  {
    if runs == [] then []
    else
      var r := runs[0];
      if ShouldPostPrice(hour, last, r.at) && r.published then
        [MskDate(r.done)] + PriceDates(hour, Some(MskDate(r.done)), runs[1..])
      else PriceDates(hour, last, runs[1..])
  }

  predicate Chronological(runs: seq<PriceRun>) {
    forall i, j :: 0 <= i < j < |runs| ==> runs[i].at <= runs[j].at
  }

  /**
   * When the checks come in time order and each post goes out on the MSK
   * date it was checked on, the dates a track posts on strictly increase:
   * each price track publishes at most once per MSK date.
   */
  lemma {:induction false} PriceOncePerDate(hour: int, last: Option<int>, runs: seq<PriceRun>)
    requires Chronological(runs)
    requires forall i :: 0 <= i < |runs| ==> MskDate(runs[i].done) == MskDate(runs[i].at)
    ensures forall k :: 0 <= k < |PriceDates(hour, last, runs)| ==> MskDate(runs[0].at) <= PriceDates(hour, last, runs)[k]
    ensures forall k :: 0 <= k < |PriceDates(hour, last, runs)| - 1
              ==> PriceDates(hour, last, runs)[k] < PriceDates(hour, last, runs)[k + 1]
    decreases |runs|
  {
    if runs != [] {
      var r := runs[0];
      var rest := runs[1..];
      var fired := ShouldPostPrice(hour, last, r.at) && r.published;
      var next := if fired then Some(MskDate(r.done)) else last;
      assert Chronological(rest) by {
        forall i, j | 0 <= i < j < |rest| ensures rest[i].at <= rest[j].at {
          assert rest[i] == runs[i + 1] && rest[j] == runs[j + 1];
        }
      }
      PriceOncePerDate(hour, next, rest);
      var tail := PriceDates(hour, next, rest);
      if rest != [] {
        MskDateMonotone(r.at, rest[0].at);
      }
      if fired {
        var d := MskDate(r.done);
        var dates := [d] + tail;
        if tail != [] {
          PriceTailAfter(hour, d, rest);
        }
        forall k | 0 <= k < |dates| - 1
          ensures dates[k] < dates[k + 1]
        {
          if k > 0 {
            assert dates[k + 1] == tail[k] && dates[k] == tail[k - 1];
          }
        }
        forall k | 0 <= k < |dates|
          ensures MskDate(r.at) <= dates[k]
        {
          if k > 0 {
            assert dates[k] == tail[k - 1];
          }
        }
        assert PriceDates(hour, last, runs) == dates;
      } else {
        assert PriceDates(hour, last, runs) == tail;
      }
    }
  }

  /** Once a track recorded date `d`, a later post of it lies on a later date. */
  lemma {:induction false} PriceTailAfter(hour: int, d: int, runs: seq<PriceRun>)
    requires Chronological(runs)
    requires runs != [] && d <= MskDate(runs[0].at)
    requires forall i :: 0 <= i < |runs| ==> MskDate(runs[i].done) == MskDate(runs[i].at)
    ensures var dates := PriceDates(hour, Some(d), runs);
      dates != [] ==> d < dates[0]
    decreases |runs|
  {
    var r := runs[0];
    if !(ShouldPostPrice(hour, Some(d), r.at) && r.published) && |runs| > 1 {
      MskDateMonotone(r.at, runs[1].at);
      PriceTailAfter(hour, d, runs[1..]);
    }
  }

  // ---------------------------------------------------------------- the sleep of run_loop

  /** From five minutes before a price hour to a quarter past it. */
  function NearPriceTime(hour: int, now: int): (near: bool)
    ensures InPriceWindow(hour, now) ==> near
  {
    (MskHour(now) == hour - 1 && MskMinute(now) >= 55) || (MskHour(now) == hour && MskMinute(now) <= 15)
  }

  /**
   * The argument `run_loop` passes to `asyncio.sleep`, which counts seconds:
   * 60 near a price hour, otherwise `MIN_HOURS_BETWEEN_POSTS * 60`, which
   * is 30.
   */
  function CheckInterval(now: int): (seconds: nat)
    ensures seconds == 60 <==> NearPriceTime(Config.PriceMorningHour, now) || NearPriceTime(Config.PriceEveningHour, now)
    ensures seconds == 30 || seconds == 60
    ensures InPriceWindow(Config.PriceMorningHour, now) || InPriceWindow(Config.PriceEveningHour, now) ==> seconds == 60
    ensures seconds < Config.MinSecondsBetweenPosts() - 6
  {
    if NearPriceTime(Config.PriceMorningHour, now) || NearPriceTime(Config.PriceEveningHour, now) then 60
    else Config.MinMinutesBetweenPosts
  }

  /** Every price window lies inside the one-minute polling period. */
  lemma WindowPolledEveryMinute(hour: int, now: int)
    requires InPriceWindow(hour, now)
    requires hour == Config.PriceMorningHour || hour == Config.PriceEveningHour
    ensures CheckInterval(now) == 60
  {
  }

  /** The loop wakes long before the cycle gate opens again: right after a
      post, the next check is always refused. */
  lemma NextWakeRefused(post: int)
    ensures !CycleGateOpen(Some(post), post + CheckInterval(post))
  {
  }
}
